/** The invariant of the transaction tables, kept by every manager method and every move of the chain. */
module EvmInvariant {
  import opened Wrappers
  import opened EvmTypes
  import opened EvmEngine

  // --------------------------------------------------------------- invariant

  /** Both fees rise by strictly more than the minimum percentage. */
  predicate RungUp(p: Policy, a: Fees, b: Fees) {
    100 * b.tip > a.tip * (100 + p.minBump) && 100 * b.maxFee > a.maxFee * (100 + p.minBump)
  }

  function FeesOf(tx: Tx): Fees { FeePair(tx.tip, tx.maxFee) }

  /** Attempt `k` spells out the intent's own economic action under the caps. */
  predicate AttemptOk(p: Policy, r: Intent, k: nat)
    requires k < |r.attempts|
  {
    var tx := r.attempts[k].tx;
    && r.attempts[k].number == k + 1
    && tx.lane == r.lane && tx.to == r.target && tx.data == r.calldata && tx.value == r.value
    && tx.nonce == r.attempts[0].tx.nonce
    && WithinCaps(p, tx.gas, FeesOf(tx), tx.value)
  }

  predicate AttemptsOk(p: Policy, r: Intent) {
    && |r.attempts| <= p.maxReplacements + 1
    && (forall k :: 0 <= k < |r.attempts| ==> AttemptOk(p, r, k))
    && (forall k :: 0 < k < |r.attempts| ==> RungUp(p, FeesOf(r.attempts[k - 1].tx), FeesOf(r.attempts[k].tx)))
  }

  predicate StatusOk(r: Intent) {
    && (r.nonce.Some? && r.attempts != [] ==> r.nonce == Some(r.attempts[0].tx.nonce))
    && (r.nonce.None? ==> !Touched(r))
    && match r.status
       case Created => r.attempts == [] && r.nonce.None?
       case NonceReserved => r.attempts == [] && r.nonce.Some?
       case Dispatching => r.attempts != [] && r.nonce.Some?
       case Pending => r.attempts != [] && r.nonce.Some?
       case Confirmed => r.attempts != [] && r.nonce.Some?
       case NonceConflict => r.attempts != [] && r.nonce.Some?
       case _ => r.nonce.Some? ==> Touched(r)
  }

  /** What the rows say was mined is what the chain mined. */
  predicate MinedOk(mined: map<Slot, Fate>, r: Intent) {
    && (forall k :: 0 <= k < |r.attempts| && r.attempts[k].status == MinedSuccess ==>
          MinedAs(mined, r.attempts[k].tx, true) && r.status == Confirmed && r.canonical == Some(r.attempts[k].tx))
    && (forall k :: 0 <= k < |r.attempts| && r.attempts[k].status == MinedRevert ==>
          MinedAs(mined, r.attempts[k].tx, false) && r.status == Reverted)
    && (r.status == Confirmed ==>
          && (exists k :: 0 <= k < |r.attempts| && r.attempts[k].status == MinedSuccess)
          && (forall k :: 0 <= k < |r.attempts| ==>
                r.attempts[k].status == MinedSuccess || r.attempts[k].status == Superseded))
    && (r.status != Confirmed ==> r.canonical == None)
  }

  predicate RowOk(p: Policy, mined: map<Slot, Fate>, r: Intent) {
    AttemptsOk(p, r) && StatusOk(r) && MinedOk(mined, r)
  }

  predicate RowsOk(p: Policy, s: Engine) {
    forall i :: 0 <= i < |s.rows| ==> RowOk(p, s.mined, s.rows[i])
  }

  predicate KeysDistinct(rows: seq<Intent>) {
    forall i, j :: 0 <= i < j < |rows| ==> rows[i].key != rows[j].key
  }

  /** The partial unique index on (chain, signer, nonce). */
  predicate NoncesDistinct(rows: seq<Intent>) {
    forall i, j :: 0 <= i < j < |rows| && rows[i].lane == rows[j].lane && rows[i].nonce.Some? ==>
      rows[i].nonce != rows[j].nonce
  }

  predicate SameAttempt(i: nat, k: nat, j: nat, l: nat) { i == j && k == l }

  predicate HashesDistinct(rows: seq<Intent>) {
    forall i, j, k, l ::
      (0 <= i < |rows| && 0 <= j < |rows| && 0 <= k < |rows[i].attempts| && 0 <= l < |rows[j].attempts|
       && rows[i].attempts[k].tx == rows[j].attempts[l].tx)
      ==> SameAttempt(i, k, j, l)
  }

  predicate BareNonce(r: Intent) { r.nonce.Some? && r.attempts == [] }

  predicate OneBareNonce(rows: seq<Intent>) {
    forall i, j ::
      (0 <= i < j < |rows| && rows[i].lane == rows[j].lane) ==> !(BareNonce(rows[i]) && BareNonce(rows[j]))
  }

  /** Nothing reaches the node before it is stored, and only what was sent is mined. */
  predicate ChainOk(s: Engine) {
    && (forall tx :: tx in s.sent ==> Recorded(s.rows, tx))
    && (forall slot :: slot in s.mined && s.mined[slot].Ours? ==>
          s.mined[slot].tx in s.sent && slot == Slot(s.mined[slot].tx.lane, s.mined[slot].tx.nonce))
  }

  predicate Inv(p: Policy, s: Engine) {
    && RowsOk(p, s)
    && KeysDistinct(s.rows) && NoncesDistinct(s.rows) && HashesDistinct(s.rows) && OneBareNonce(s.rows)
    && ChainOk(s)
  }

  // ------------------------------------------------------------ one row moves

  predicate SameTxs(a: seq<Attempt>, b: seq<Attempt>) {
    |a| == |b| && forall k :: 0 <= k < |a| ==> a[k].tx == b[k].tx && a[k].number == b[k].number
  }

  /** A row changes status, attempt statuses and the canonical hash, and may give its nonce back. */
  predicate Marks(r: Intent, r': Intent) {
    && r'.key == r.key && r'.lane == r.lane && r'.target == r.target && r'.calldata == r.calldata && r'.value == r.value
    && SameTxs(r.attempts, r'.attempts)
    && (r'.nonce == r.nonce || r'.nonce == None)
  }

  lemma MarksKeepAttempts(p: Policy, r: Intent, r': Intent)
    requires Marks(r, r') && AttemptsOk(p, r)
    ensures AttemptsOk(p, r')
  {
    forall k | 0 <= k < |r'.attempts|
      ensures AttemptOk(p, r', k)
    {
      assert AttemptOk(p, r, k);
    }
  }

  lemma MarksKeepRecorded(rows: seq<Intent>, i: nat, r': Intent, tx: Tx)
    requires i < |rows| && Marks(rows[i], r') && Recorded(rows, tx)
    ensures Recorded(rows[i := r'], tx)
  {
    var j, k :| 0 <= j < |rows| && 0 <= k < |rows[j].attempts| && rows[j].attempts[k].tx == tx;
    assert rows[i := r'][j].attempts[k].tx == tx;
  }

  lemma MarksKeepHashes(rows: seq<Intent>, i: nat, r': Intent)
    requires i < |rows| && Marks(rows[i], r') && HashesDistinct(rows)
    ensures HashesDistinct(rows[i := r'])
  {
    var rows' := rows[i := r'];
    forall a, b, k, l |
      0 <= a < |rows'| && 0 <= b < |rows'| && 0 <= k < |rows'[a].attempts| && 0 <= l < |rows'[b].attempts|
      && rows'[a].attempts[k].tx == rows'[b].attempts[l].tx
      ensures SameAttempt(a, k, b, l)
    {
      assert rows[a].attempts[k].tx == rows[b].attempts[l].tx;
    }
  }

  lemma MarkKeepsInv(p: Policy, s: Engine, i: nat, r': Intent)
    requires Inv(p, s) && i < |s.rows| && Marks(s.rows[i], r')
    requires StatusOk(r') && MinedOk(s.mined, r')
    ensures Inv(p, Update(s, i, r'))
  {
    hide StatusOk, MinedOk, AttemptsOk;
    MarksKeepAttempts(p, s.rows[i], r');
    MarksKeepHashes(s.rows, i, r');
    forall tx | tx in s.sent
      ensures Recorded(s.rows[i := r'], tx)
    {
      MarksKeepRecorded(s.rows, i, r', tx);
    }
    assert BareNonce(r') ==> BareNonce(s.rows[i]);
  }

  lemma MarkBroadcastOk(mined: map<Slot, Fate>, r: Intent, k: nat)
    requires StatusOk(r) && MinedOk(mined, r) && k < |r.attempts| && r.status != Confirmed && r.nonce.Some?
    ensures var r' := MarkBroadcast(r, k); Marks(r, r') && StatusOk(r') && MinedOk(mined, r')
  {
    assert MarkBroadcast(r, k).attempts[k].status == Broadcast;
  }

  lemma MarkMinedSuccessOk(mined: map<Slot, Fate>, r: Intent, k: nat)
    requires StatusOk(r) && MinedOk(mined, r) && k < |r.attempts| && Active(r.status)
    requires MinedAs(mined, r.attempts[k].tx, true)
    ensures var r' := MarkMinedSuccess(r, k); Marks(r, r') && StatusOk(r') && MinedOk(mined, r')
  {
    assert MarkMinedSuccess(r, k).attempts[k].status == MinedSuccess;
  }

  lemma MarkMinedRevertOk(mined: map<Slot, Fate>, r: Intent, k: nat)
    requires StatusOk(r) && MinedOk(mined, r) && k < |r.attempts| && Active(r.status)
    requires MinedAs(mined, r.attempts[k].tx, false)
    ensures var r' := MarkMinedRevert(r, k); Marks(r, r') && StatusOk(r') && MinedOk(mined, r')
  {
    assert MarkMinedRevert(r, k).attempts[k].status == MinedRevert;
  }

  lemma CloseOk(mined: map<Slot, Fate>, r: Intent, status: IntentStatus)
    requires StatusOk(r) && MinedOk(mined, r) && Active(r.status) && Dead(status)
    ensures var r' := Close(r, status); Marks(r, r') && StatusOk(r') && MinedOk(mined, r')
  {
    assert Close(r, status).attempts == r.attempts;
  }

  // ------------------------------------------------------------------ methods

  lemma CloseKeepsInv(p: Policy, s: Engine, i: nat, status: IntentStatus)
    requires Inv(p, s) && i < |s.rows| && Active(s.rows[i].status) && Dead(status)
    ensures Inv(p, Update(s, i, Close(s.rows[i], status)))
  {
    assert RowOk(p, s.mined, s.rows[i]);
    CloseOk(s.mined, s.rows[i], status);
    MarkKeepsInv(p, s, i, Close(s.rows[i], status));
  }

  lemma ReconcileKeepsInv(p: Policy, s: Engine, i: nat, probes: seq<Probe>, latestKnown: bool)
    requires Inv(p, s) && i < |s.rows|
    ensures Inv(p, ReconcileIntent(s, i, probes, latestKnown).state)
  {
    var r := s.rows[i];
    assert RowOk(p, s.mined, r);
    hide Inv, Marks, StatusOk, MinedOk;
    if Active(r.status) {
      match ScanFrom(s.mined, r.attempts, probes, 0) {
        case Receipt(k, success) =>
          if success {
            MarkMinedSuccessOk(s.mined, r, k);
            MarkKeepsInv(p, s, i, MarkMinedSuccess(r, k));
          } else {
            MarkMinedRevertOk(s.mined, r, k);
            MarkKeepsInv(p, s, i, MarkMinedRevert(r, k));
          }
        case _ =>
      }
    }
  }

  // ------------------------------------------------- reserving and recording

  lemma DeadHeldIsTouched(r: Intent)
    requires StatusOk(r) && BareNonce(r)
    ensures Unresolved(r, r.lane)
  {
  }

  /** Two rows trade places with nothing: attempts, keys and the chain are untouched by a reservation. */
  lemma ReserveKeepsInv(p: Policy, s: Engine, i: nat, pending: nat)
    requires Inv(p, s) && i < |s.rows| && Active(s.rows[i].status) && Reserve(s.rows, i, pending).Some?
    ensures Inv(p, s.(rows := Reserve(s.rows, i, pending).value))
    ensures Active(Reserve(s.rows, i, pending).value[i].status)
  {
    var r := s.rows[i];
    if r.nonce.None? {
      assert RowOk(p, s.mined, r);
      var rows' := Reserve(s.rows, i, pending).value;
      ReservedRowOk(p, s.mined, r, rows'[i]);
      ReserveKeepsIndexes(s.rows, i, pending);
      forall tx | tx in s.sent
        ensures Recorded(rows', tx)
      {
        var j, k :| 0 <= j < |s.rows| && 0 <= k < |s.rows[j].attempts| && s.rows[j].attempts[k].tx == tx;
        assert rows'[j].attempts[k].tx == tx;
      }
    }
  }

  lemma ReservedRowOk(p: Policy, mined: map<Slot, Fate>, r: Intent, r': Intent)
    requires RowOk(p, mined, r) && Active(r.status) && r.nonce.None? && r'.nonce.Some?
    requires r' == r.(nonce := r'.nonce, status := NonceReserved)
    ensures RowOk(p, mined, r')
  {
  }

  lemma ReserveKeepsIndexes(rows: seq<Intent>, i: nat, pending: nat)
    requires i < |rows| && rows[i].nonce.None? && rows[i].attempts == [] && Reserve(rows, i, pending).Some?
    requires KeysDistinct(rows) && NoncesDistinct(rows) && HashesDistinct(rows) && OneBareNonce(rows)
    requires forall j :: 0 <= j < |rows| ==> StatusOk(rows[j])
    ensures var rows' := Reserve(rows, i, pending).value;
      KeysDistinct(rows') && NoncesDistinct(rows') && HashesDistinct(rows') && OneBareNonce(rows')
  {
    var rows' := Reserve(rows, i, pending).value;
    forall a, b, k, l |
      0 <= a < |rows'| && 0 <= b < |rows'| && 0 <= k < |rows'[a].attempts| && 0 <= l < |rows'[b].attempts|
      && rows'[a].attempts[k].tx == rows'[b].attempts[l].tx
      ensures SameAttempt(a, k, b, l)
    {
      assert rows[a].attempts[k].tx == rows[b].attempts[l].tx;
    }
    forall j | 0 <= j < |rows| && j != i && rows[j].lane == rows[i].lane
      ensures !BareNonce(rows[j])
    {
      if BareNonce(rows[j]) { DeadHeldIsTouched(rows[j]); }
    }
  }

  /** What the next attempt must look like for its row to stay in order. */
  predicate NextAttempt(p: Policy, r: Intent, tx: Tx) {
    && |r.attempts| <= p.maxReplacements
    && r.nonce == Some(tx.nonce)
    && tx.lane == r.lane && tx.to == r.target && tx.data == r.calldata && tx.value == r.value
    && WithinCaps(p, tx.gas, FeesOf(tx), tx.value)
    && (r.attempts != [] ==> RungUp(p, FeesOf(r.attempts[|r.attempts| - 1].tx), FeesOf(tx)))
  }

  function Recorder(r: Intent, tx: Tx): Intent {
    r.(attempts := r.attempts + [Attempt(|r.attempts| + 1, tx, Prepared)], status := Dispatching)
  }

  lemma RecordedAttemptsOk(p: Policy, r: Intent, tx: Tx)
    requires AttemptsOk(p, r) && StatusOk(r) && NextAttempt(p, r, tx)
    ensures AttemptsOk(p, Recorder(r, tx))
  {
    var r' := Recorder(r, tx);
    forall k | 0 <= k < |r'.attempts|
      ensures AttemptOk(p, r', k)
    {
      if k < |r.attempts| { assert AttemptOk(p, r, k); }
    }
  }

  lemma RecordedRowOk(p: Policy, mined: map<Slot, Fate>, r: Intent, tx: Tx)
    requires RowOk(p, mined, r) && NextAttempt(p, r, tx) && Active(r.status)
    ensures RowOk(p, mined, Recorder(r, tx))
  {
    RecordedAttemptsOk(p, r, tx);
  }

  lemma RecordKeepsHashes(rows: seq<Intent>, i: nat, tx: Tx)
    requires i < |rows| && HashesDistinct(rows) && !Recorded(rows, tx)
    ensures HashesDistinct(rows[i := Recorder(rows[i], tx)])
  {
    var rows' := rows[i := Recorder(rows[i], tx)];
    assert forall a, k :: 0 <= a < |rows| && 0 <= k < |rows[a].attempts| ==> rows[a].attempts[k].tx != tx;
    forall a, b, k, l |
      0 <= a < |rows'| && 0 <= b < |rows'| && 0 <= k < |rows'[a].attempts| && 0 <= l < |rows'[b].attempts|
      && rows'[a].attempts[k].tx == rows'[b].attempts[l].tx
      ensures SameAttempt(a, k, b, l)
    {
      if k < |rows[a].attempts| && l < |rows[b].attempts| {
        assert rows[a].attempts[k].tx == rows[b].attempts[l].tx;
      }
    }
  }

  lemma NumberIsFree(p: Policy, r: Intent)
    requires AttemptsOk(p, r)
    ensures FindNumber(r.attempts, |r.attempts| + 1) == None
  {
    forall k | 0 <= k < |r.attempts|
      ensures r.attempts[k].number != |r.attempts| + 1
    {
      assert AttemptOk(p, r, k);
    }
  }

  /** Recording adds exactly the next attempt, or throws because the same transaction is already stored. */
  lemma RecordKeepsInv(p: Policy, s: Engine, i: nat, tx: Tx)
    requires Inv(p, s) && i < |s.rows| && Active(s.rows[i].status) && NextAttempt(p, s.rows[i], tx)
    ensures var rec := Record(s.rows, i, |s.rows[i].attempts| + 1, tx);
      && rec.Stored? == !Recorded(s.rows, tx)
      && (rec.Stored? ==>
            && rec.k == |s.rows[i].attempts| && rec.rows == s.rows[i := Recorder(s.rows[i], tx)]
            && Inv(p, s.(rows := rec.rows)))
  {
    var r := s.rows[i];
    assert RowOk(p, s.mined, r);
    NumberIsFree(p, r);
    if !Recorded(s.rows, tx) {
      RecordedRowOk(p, s.mined, r, tx);
      RecordKeepsHashes(s.rows, i, tx);
      RecordKeepsOthers(s.rows, i, tx);
      hide RowOk, NextAttempt, KeysDistinct, NoncesDistinct, HashesDistinct, OneBareNonce;
      forall t | t in s.sent
        ensures Recorded(s.rows[i := Recorder(r, tx)], t)
      {
        RecordKeepsRecorded(s.rows, i, tx, t);
      }
    }
  }

  lemma RecordKeepsOthers(rows: seq<Intent>, i: nat, tx: Tx)
    requires i < |rows| && KeysDistinct(rows) && NoncesDistinct(rows) && OneBareNonce(rows)
    ensures var rows' := rows[i := Recorder(rows[i], tx)];
      KeysDistinct(rows') && NoncesDistinct(rows') && OneBareNonce(rows')
  {
  }

  lemma RecordKeepsRecorded(rows: seq<Intent>, i: nat, tx: Tx, t: Tx)
    requires i < |rows| && Recorded(rows, t)
    ensures Recorded(rows[i := Recorder(rows[i], tx)], t)
  {
    var j, k :| 0 <= j < |rows| && 0 <= k < |rows[j].attempts| && rows[j].attempts[k].tx == t;
    assert rows[i := Recorder(rows[i], tx)][j].attempts[k].tx == t;
  }

  // ------------------------------------------------------------------ prepare

  lemma BumpedIsStrict(fee: nat, percent: nat, least: nat)
    requires percent >= least
    ensures 100 * Bumped(fee, percent) > fee * (100 + least)
  {
    assert fee * (100 + percent) == fee * (100 + least) + fee * (percent - least);
  }

  lemma NextFeesClimb(p: Policy, r: Intent, customBump: nat, rpc: Fees)
    requires r.attempts != []
    ensures RungUp(p, FeesOf(r.attempts[|r.attempts| - 1].tx), NextFees(p, r, Some(customBump), rpc))
  {
    var prev := r.attempts[|r.attempts| - 1].tx;
    var percent := Max(p.minBump, customBump);
    BumpedIsStrict(prev.tip, percent, p.minBump);
    BumpedIsStrict(prev.maxFee, percent, p.minBump);
  }

  lemma SignAndRecordKeepsInv(p: Policy, s: Engine, i: nat, gas: nat, fees: Fees, a: PrepareAnswers)
    requires Inv(p, s) && i < |s.rows| && Active(s.rows[i].status)
    requires |s.rows[i].attempts| <= p.maxReplacements && WithinCaps(p, gas, fees, s.rows[i].value)
    requires s.rows[i].attempts != [] ==>
      RungUp(p, FeesOf(s.rows[i].attempts[|s.rows[i].attempts| - 1].tx), fees)
    ensures var n := SignAndRecord(s, i, gas, fees, a);
      && Inv(p, n.state)
      && (n.Ready? ==> Active(n.state.rows[i].status))
  {
    hide Inv, WithinCaps, RungUp;
    var r := s.rows[i];
    var pending := if a.pending.Some? then a.pending.value else 0;
    var waits := r.nonce.None? && (AnotherUnresolved(s.rows, i, r.lane) || a.pending.None?);
    if !waits && Reserve(s.rows, i, pending).Some? {
      ReserveKeepsInv(p, s, i, pending);
      var s1 := s.(rows := Reserve(s.rows, i, pending).value);
      var r1 := s1.rows[i];
      var tx := Tx(r.lane, r1.nonce.value, r.target, r.calldata, r.value, gas, fees.maxFee, fees.tip);
      RecordKeepsInv(p, s1, i, tx);
    }
  }

  lemma PrepareKeepsInv(p: Policy, s: Engine, i: nat, calldata: nat, bump: Option<nat>, a: PrepareAnswers)
    requires Inv(p, s) && i < |s.rows| && Active(s.rows[i].status)
    requires bump.Some? <==> s.rows[i].attempts != []
    ensures var n := Prepare(p, s, i, calldata, bump, a);
      && Inv(p, n.state)
      && (n.Ready? ==> Active(n.state.rows[i].status))
  {
    hide Inv, WithinCaps, RungUp, SignAndRecord;
    var r := s.rows[i];
    CloseKeepsInv(p, s, i, FeeCapBlocked);
    CloseKeepsInv(p, s, i, Reverted);
    var gas := GasLimit(a.gas);
    var fees := NextFees(p, r, bump, Estimated(a.fees));
    if |r.attempts| <= p.maxReplacements && WithinCaps(p, gas, fees, r.value) {
      if bump.Some? { NextFeesClimb(p, r, bump.value, Estimated(a.fees)); }
      SignAndRecordKeepsInv(p, s, i, gas, fees, a);
    }
  }

  // ---------------------------------------------------------------- broadcast

  lemma SentKeepsInv(p: Policy, s: Engine, i: nat, k: nat)
    requires Inv(p, s) && i < |s.rows| && k < |s.rows[i].attempts|
    ensures Inv(p, Sent(s, s.rows[i].attempts[k].tx))
  {
  }

  lemma BroadcastKeepsInv(p: Policy, s: Engine, i: nat, k: nat, send: SendAnswer)
    requires Inv(p, s) && i < |s.rows| && k < |s.rows[i].attempts|
    requires Active(s.rows[i].status) || (s.rows[i].status == Reverted && s.rows[i].nonce.Some?)
    ensures Inv(p, BroadcastAttempt(s, i, k, send).state)
  {
    var r := s.rows[i];
    assert RowOk(p, s.mined, r);
    assert r.nonce.Some?;
    hide Inv, StatusOk, MinedOk, Marks;
    SentKeepsInv(p, s, i, k);
    match send {
      case NonceTooLow(probes, latestKnown) =>
        ReconcileKeepsInv(p, s, i, probes, latestKnown);
        var o := ReconcileIntent(s, i, probes, latestKnown);
        if o.ok && o.state.rows[i].status != Confirmed && o.state.rows[i].status != Reverted {
          assert o.state == s;
          ConflictKeepsInv(p, s, i);
        }
      case _ =>
        MarkBroadcastOk(s.mined, r, k);
        MarkKeepsInv(p, Sent(s, r.attempts[k].tx), i, MarkBroadcast(r, k));
    }
  }

  lemma ConflictKeepsInv(p: Policy, s: Engine, i: nat)
    requires Inv(p, s) && i < |s.rows| && Active(s.rows[i].status) && s.rows[i].attempts != []
    ensures Inv(p, Update(s, i, s.rows[i].(status := NonceConflict)))
  {
    assert RowOk(p, s.mined, s.rows[i]);
    MarkKeepsInv(p, s, i, s.rows[i].(status := NonceConflict));
  }

  // ----------------------------------------------------------- whole methods

  lemma NewRowKeepsIndexes(rows: seq<Intent>, r: Intent)
    requires KeysDistinct(rows) && NoncesDistinct(rows) && HashesDistinct(rows) && OneBareNonce(rows)
    requires r.nonce.None? && r.attempts == [] && forall j :: 0 <= j < |rows| ==> rows[j].key != r.key
    ensures var rows' := rows + [r];
      KeysDistinct(rows') && NoncesDistinct(rows') && HashesDistinct(rows') && OneBareNonce(rows')
  {
  }

  lemma GetOrCreateKeepsInv(p: Policy, s: Engine, lane: Lane, q: Request)
    requires Inv(p, s)
    ensures Inv(p, GetOrCreate(s, lane, q))
  {
    var s' := GetOrCreate(s, lane, q);
    if s' != s {
      NewRowKeepsIndexes(s.rows, NewIntent(lane, q));
      assert RowOk(p, s.mined, NewIntent(lane, q));
      hide KeysDistinct, NoncesDistinct, HashesDistinct, OneBareNonce, RowOk;
      forall tx | tx in s.sent
        ensures Recorded(s'.rows, tx)
      {
        var j, k :| 0 <= j < |s.rows| && 0 <= k < |s.rows[j].attempts| && s.rows[j].attempts[k].tx == tx;
        assert s'.rows[j].attempts[k].tx == tx;
      }
    }
  }

  lemma PrepareAndSendKeepsInv(p: Policy, s: Engine, i: nat, calldata: nat, bump: Option<nat>, a: PrepareAnswers,
                               send: SendAnswer)
    requires Inv(p, s) && i < |s.rows| && Active(s.rows[i].status)
    requires bump.Some? <==> s.rows[i].attempts != []
    ensures Inv(p, PrepareAndSend(p, s, i, calldata, bump, a, send))
  {
    hide Inv, Prepare;
    PrepareKeepsInv(p, s, i, calldata, bump, a);
    match Prepare(p, s, i, calldata, bump, a) {
      case Stopped(_) =>
      case Ready(s1, k) => BroadcastKeepsInv(p, s1, i, k, send);
    }
  }

  lemma ActiveHoldsNonce(p: Policy, s: Engine, i: nat)
    requires Inv(p, s) && i < |s.rows| && Active(s.rows[i].status) && s.rows[i].attempts != []
    ensures s.rows[i].nonce.Some?
  {
    assert RowOk(p, s.mined, s.rows[i]);
  }

  lemma ExecuteKeepsInv(p: Policy, s: Engine, i: nat, calldata: nat, probes: seq<Probe>, latestKnown: bool,
                        a: PrepareAnswers, send: SendAnswer)
    requires Inv(p, s) && i < |s.rows|
    ensures Inv(p, ExecuteIntent(p, s, i, calldata, probes, latestKnown, a, send))
  {
    hide Inv, PrepareAndSend, BroadcastAttempt, ScanFrom;
    var r := s.rows[i];
    if Active(r.status) {
      if r.attempts == [] {
        PrepareAndSendKeepsInv(p, s, i, calldata, None, a, send);
      } else {
        ActiveHoldsNonce(p, s, i);
        ReconcileKeepsInv(p, s, i, probes, latestKnown);
        var o := ReconcileIntent(s, i, probes, latestKnown);
        if o.ok && o.state.rows[i].status != Confirmed {
          BroadcastKeepsInv(p, o.state, i, |r.attempts| - 1, send);
        }
      }
    }
  }

  lemma RecoverOneKeepsInv(p: Policy, s: Engine, i: nat, lane: Lane, a: RecoveryAnswer)
    requires Inv(p, s) && i < |s.rows| && Active(s.rows[i].status)
    ensures Inv(p, RecoverOne(s, i, lane, a).state)
  {
    hide Inv, BroadcastAttempt, ReconcileIntent;
    match FirstPrepared(s.rows[i].attempts, 0) {
      case None => ReconcileKeepsInv(p, s, i, a.probes, a.latestKnown);
      case Some(k) =>
        BroadcastKeepsInv(p, s, i, k, a.send);
        var o := BroadcastAttempt(s, i, k, a.send);
        ReconcileKeepsInv(p, o.state, i, a.probes, a.latestKnown);
    }
  }

  lemma {:induction false} RecoverKeepsInv(p: Policy, s: Engine, i: nat, lane: Lane, answers: seq<RecoveryAnswer>)
    requires Inv(p, s) && i <= |s.rows|
    ensures Inv(p, RecoverFrom(s, i, lane, answers).state)
    decreases |s.rows| - i
  {
    hide Inv, RecoverOne;
    if i < |s.rows| {
      if !Active(s.rows[i].status) || s.rows[i].lane.chain != lane.chain {
        RecoverKeepsInv(p, s, i + 1, lane, answers);
      } else {
        RecoverOneKeepsInv(p, s, i, lane, RecoveryAnswerAt(answers, i));
        var o := RecoverOne(s, i, lane, RecoveryAnswerAt(answers, i));
        if o.ok { RecoverKeepsInv(p, o.state, i + 1, lane, answers); }
      }
    }
  }

  /** Mining never changes what was already mined, so what the rows say stays true. */
  lemma MiningKeepsInv(p: Policy, s: Engine, s': Engine, slot: Slot)
    requires Inv(p, s) && slot !in s.mined && slot in s'.mined
    requires s' == s.(mined := s.mined[slot := s'.mined[slot]])
    requires s'.mined[slot].Ours? ==>
      s'.mined[slot].tx in s.sent && slot == Slot(s'.mined[slot].tx.lane, s'.mined[slot].tx.nonce)
    ensures Inv(p, s')
  {
    forall i | 0 <= i < |s'.rows|
      ensures RowOk(p, s'.mined, s'.rows[i])
    {
      assert RowOk(p, s.mined, s.rows[i]);
    }
  }

  lemma StepKeepsInv(p: Policy, s: Engine, e: Event)
    requires Inv(p, s)
    ensures Inv(p, Step(p, s, e))
  {
    hide Inv, ExecuteIntent, PrepareAndSend, RecoverFrom, ReconcileIntent;
    match e {
      case Execute(lane, q, probes, latestKnown, a, send) =>
        GetOrCreateKeepsInv(p, s, lane, q);
        var s1 := GetOrCreate(s, lane, q);
        var i := FindKey(s1.rows, q.key);
        if i.Some? { ExecuteKeepsInv(p, s1, i.value, q.calldata, probes, latestKnown, a, send); }
      case Replace(i, calldata, bump, a, send) =>
        if i < |s.rows| && (s.rows[i].status == Pending || s.rows[i].status == Dispatching)
           && s.rows[i].attempts != []
        {
          PrepareAndSendKeepsInv(p, s, i, calldata, Some(bump), a, send);
        }
      case Reconcile(i, probes, latestKnown) =>
        if i < |s.rows| { ReconcileKeepsInv(p, s, i, probes, latestKnown); }
      case Recover(lane, answers) => RecoverKeepsInv(p, s, 0, lane, answers);
      case Mine(tx, success) =>
        var slot := Slot(tx.lane, tx.nonce);
        if tx in s.sent && slot !in s.mined { MiningKeepsInv(p, s, Step(p, s, e), slot); }
      case MineForeign(slot) =>
        if slot !in s.mined { MiningKeepsInv(p, s, Step(p, s, e), slot); }
    }
  }

  lemma {:induction false} RunKeepsInv(p: Policy, s: Engine, events: seq<Event>)
    requires Inv(p, s)
    ensures Inv(p, Run(p, s, events))
    decreases |events|
  {
    hide Inv;
    if events != [] {
      StepKeepsInv(p, s, events[0]);
      RunKeepsInv(p, Step(p, s, events[0]), events[1..]);
    }
  }

  lemma StartInv(p: Policy)
    ensures Inv(p, Start)
  {
  }
}
