/**
 The transaction manager over its two tables, updated in place. Every method
 is proved equal to its step of the engine and keeps the engine's invariant.
 */
module EvmManager {
  import opened Wrappers
  import opened EvmTypes
  import opened EvmEngine
  import opened EvmInvariant

  /** The table once the intent has a nonce to sign with; None if it gets none. */
  function NonceTaken(rows: seq<Intent>, i: nat, pending: Option<nat>): (o: Option<seq<Intent>>)
    requires i < |rows|
    ensures o.Some? ==> |o.value| == |rows| && o.value[i].nonce.Some? && o.value[i].attempts == rows[i].attempts
  {
    if rows[i].nonce.Some? then Some(rows)
    else if pending.None? then None
    else Reserve(rows, i, pending.value)
  }

  /** Signing and recording, once the nonce is taken. */
  lemma SigningUnfolds(s: Engine, i: nat, gas: nat, fees: Fees, a: PrepareAnswers)
    requires i < |s.rows|
    ensures SignAndRecord(s, i, gas, fees, a)
         == var r := s.rows[i];
            var o := NonceTaken(s.rows, i, a.pending);
            if o.None? then Stopped(s)
            else
              var s1 := s.(rows := o.value);
              if a.crash == AfterReserve then Stopped(s1)
              else
                var tx := Tx(r.lane, s1.rows[i].nonce.value, r.target, r.calldata, r.value, gas, fees.maxFee, fees.tip);
                match Record(s1.rows, i, |r.attempts| + 1, tx)
                case NotStored => Stopped(s1)
                case Stored(rows, k) =>
                  if a.crash == AfterRecord then Stopped(s1.(rows := rows)) else Ready(s1.(rows := rows), k)
  {
    hide Record;
  }

  class TransactionManager {
    const policy: Policy
    const lane: Lane
    var rows: seq<Intent>
    var sent: set<Tx>
    var mined: map<Slot, Fate>

    function State(): Engine
      reads this
    {
      Engine(rows, sent, mined)
    }

    predicate Valid()
      reads this
    {
      Inv(policy, State())
    }

    constructor (policy: Policy, lane: Lane)
      ensures Valid() && State() == Start && this.policy == policy && this.lane == lane
    {
      this.policy, this.lane := policy, lane;
      rows, sent, mined := [], {}, map[];
      new;
      StartInv(policy);
    }

    // ------------------------------------------------------------ persistence

    /** The highest nonce that counts for the lane, by one pass over the table. */
    method MaxNonce(lane: Lane) returns (h: int)
      ensures h == HighestHeld(rows, lane)
    {
      h := -1;
      for j := 0 to |rows|
        invariant h == HighestHeld(rows[..j], lane)
      {
        assert rows[..j + 1][..j] == rows[..j];
        if Counts(rows[j], lane) && rows[j].nonce.value > h { h := rows[j].nonce.value; }
      }
      assert rows[..|rows|] == rows;
    }

    method HasUnresolved(i: nat, lane: Lane) returns (found: bool)
      ensures found == AnotherUnresolved(rows, i, lane)
    {
      found := false;
      for j := 0 to |rows|
        invariant found <==> exists k :: 0 <= k < j && k != i && Unresolved(rows[k], lane)
      {
        if j != i && Unresolved(rows[j], lane) { found := true; }
      }
    }

    /** One transaction: the guard, the candidate, and the unique index. */
    method ReserveEvmNonce(i: nat, pending: nat) returns (ok: bool)
      requires i < |rows|
      modifies this`rows
      ensures ok == Reserve(old(rows), i, pending).Some?
      ensures rows == if ok then Reserve(old(rows), i, pending).value else old(rows)
    {
      var r := rows[i];
      if r.nonce.Some? { return true; }
      var unresolved := HasUnresolved(i, r.lane);
      if unresolved { return false; }
      var highest := MaxNonce(r.lane);
      var n := if pending > highest + 1 then pending else highest + 1;
      if HeldByAnother(rows, i, r.lane, n) { return false; }
      rows := rows[i := r.(nonce := Some(n), status := NonceReserved)];
      ok := true;
    }

    method RecordEvmAttempt(i: nat, n: nat, tx: Tx) returns (stored: bool, k: nat)
      requires i < |rows|
      modifies this`rows
      ensures var rec := Record(old(rows), i, n, tx);
        stored == rec.Stored? && (stored ==> rows == rec.rows && k == rec.k) && (!stored ==> rows == old(rows))
      // a stored attempt is found under its number, the earlier ones stay as they were, and the hash was new
      ensures stored ==> k < |rows[i].attempts| && rows[i].attempts[k].number == n
      ensures |rows| == |old(rows)| && old(rows)[i].attempts <= rows[i].attempts
      ensures rows[i].attempts != old(rows)[i].attempts ==>
                rows[i].attempts == old(rows)[i].attempts + [Attempt(n, tx, Prepared)] && !Recorded(old(rows), tx)
                && forall j :: 0 <= j < |old(rows)[i].attempts| ==> old(rows)[i].attempts[j].number != n
    {
      var r := rows[i];
      var existing := FindNumber(r.attempts, n);
      if existing.Some? { return true, existing.value; }
      if Recorded(rows, tx) { return false, 0; }
      rows := rows[i := r.(attempts := r.attempts + [Attempt(n, tx, Prepared)], status := Dispatching)];
      return true, |r.attempts|;
    }

    method MarkEvmAttemptBroadcast(i: nat, k: nat)
      requires i < |rows| && k < |rows[i].attempts|
      modifies this`rows
      ensures rows == old(rows)[i := MarkBroadcast(old(rows)[i], k)]
    {
      var r := rows[i];
      var status := r.status;
      if status == Created || status == NonceReserved || status == Dispatching { status := Pending; }
      rows := rows[i := r.(attempts := r.attempts[k := r.attempts[k].(status := Broadcast)], status := status)];
    }

    /** The winner is marked, every attempt still open is superseded, and the intent confirmed. */
    method MarkEvmMinedSuccess(i: nat, k: nat)
      requires i < |rows| && k < |rows[i].attempts|
      modifies this`rows
      ensures rows == old(rows)[i := MarkMinedSuccess(old(rows)[i], k)]
    {
      var r := rows[i];
      var a := r.attempts[k := r.attempts[k].(status := MinedSuccess)];
      for j := 0 to |a|
        invariant |a| == |r.attempts|
        invariant forall l :: 0 <= l < j ==> a[l] == SettleAttempts(r.attempts, k)[l]
        invariant forall l :: j <= l < |a| ==>
          a[l] == if l == k then r.attempts[l].(status := MinedSuccess) else r.attempts[l]
      {
        if j != k && (a[j].status == Broadcast || a[j].status == Prepared) {
          a := a[j := a[j].(status := Superseded)];
        }
      }
      assert a == SettleAttempts(r.attempts, k);
      rows := rows[i := r.(attempts := a, status := Confirmed, canonical := Some(r.attempts[k].tx))];
    }

    method MarkEvmMinedRevert(i: nat, k: nat)
      requires i < |rows| && k < |rows[i].attempts|
      modifies this`rows
      ensures rows == old(rows)[i := MarkMinedRevert(old(rows)[i], k)]
    {
      var r := rows[i];
      rows := rows[i := r.(attempts := r.attempts[k := r.attempts[k].(status := MinedRevert)], status := Reverted)];
    }

    /** FEE_CAP_BLOCKED or a reverted simulation: the nonce is given back unless an attempt may have gone out. */
    method CloseIntent(i: nat, status: IntentStatus)
      requires i < |rows|
      modifies this`rows
      ensures rows == old(rows)[i := Close(old(rows)[i], status)]
      // what was signed stays on record; a nonce is given up exactly when no attempt may have gone out
      ensures rows[i].attempts == old(rows)[i].attempts && rows[i].status == status
      ensures old(rows)[i].nonce.Some? ==>
                (rows[i].nonce == old(rows)[i].nonce <==> Touched(old(rows)[i]))
                && (rows[i].nonce == None <==> !Touched(old(rows)[i]))
    {
      var r := rows[i];
      if Touched(r) {
        rows := rows[i := r.(status := status)];
      } else {
        rows := rows[i := r.(status := status, nonce := None)];
      }
    }

    // ---------------------------------------------------------------- methods

    /** The caps in the source's order; the first one exceeded closes the intent. */
    method CheckCaps(i: nat, gas: nat, fees: Fees) returns (allowed: bool)
      requires i < |rows|
      modifies this`rows
      ensures allowed == WithinCaps(policy, gas, fees, old(rows)[i].value)
      ensures rows == if allowed then old(rows) else old(rows)[i := Close(old(rows)[i], FeeCapBlocked)]
    {
      hide Close;
      allowed := false;
      if gas > policy.gasCap { CloseIntent(i, FeeCapBlocked); return; }
      if fees.tip > policy.tipCap { CloseIntent(i, FeeCapBlocked); return; }
      if fees.maxFee > policy.maxFeeCap { CloseIntent(i, FeeCapBlocked); return; }
      if gas * fees.maxFee + rows[i].value > policy.costCap { CloseIntent(i, FeeCapBlocked); return; }
      allowed := true;
    }

    /** A nonce for the attempt: the one already held, or a new one if the pending count is known. */
    method TakeNonce(i: nat, pending: Option<nat>) returns (ok: bool)
      requires i < |rows|
      modifies this`rows
      ensures var o := NonceTaken(old(rows), i, pending);
        ok == o.Some? && rows == (if ok then o.value else old(rows))
    {
      hide AnotherUnresolved, Unresolved, Candidate, HeldByAnother;
      if rows[i].nonce.Some? { return true; }
      var unresolved := HasUnresolved(i, rows[i].lane);
      if unresolved || pending.None? { return false; }
      ok := ReserveEvmNonce(i, pending.value);
    }

    method SignAndStore(i: nat, gas: nat, fees: Fees, a: PrepareAnswers) returns (ready: bool, k: nat)
      requires i < |rows|
      modifies this`rows
      ensures var n := SignAndRecord(old(State()), i, gas, fees, a);
        State() == n.state && ready == n.Ready? && (ready ==> k == n.k)
    {
      hide NonceTaken, Record;
      ready, k := false, 0;
      var r := rows[i];
      SigningUnfolds(State(), i, gas, fees, a);
      hide SignAndRecord;
      var ok := TakeNonce(i, a.pending);
      if !ok || a.crash == AfterReserve { return; }
      var tx := Tx(r.lane, rows[i].nonce.value, r.target, r.calldata, r.value, gas, fees.maxFee, fees.tip);
      var stored;
      stored, k := RecordEvmAttempt(i, |r.attempts| + 1, tx);
      ready := stored && a.crash != AfterRecord;
    }

    method PrepareAttempt(i: nat, calldata: nat, bump: Option<nat>, a: PrepareAnswers) returns (ready: bool, k: nat)
      requires Valid() && i < |rows| && Active(rows[i].status) && (bump.Some? <==> rows[i].attempts != [])
      modifies this`rows
      ensures var n := Prepare(policy, old(State()), i, calldata, bump, a);
        State() == n.state && ready == n.Ready? && (ready ==> k == n.k)
      ensures Valid() && |rows| == old(|rows|) && (ready ==> k < |rows[i].attempts| && Active(rows[i].status))
    {
      PrepareKeepsInv(policy, State(), i, calldata, bump, a);
      hide Inv, SignAndRecord, WithinCaps, Close, NextFees, GasLimit, Estimated;
      ready, k := false, 0;
      var r := rows[i];
      if calldata != r.calldata { return; }
      if |r.attempts| + 1 > policy.maxReplacements + 1 { CloseIntent(i, FeeCapBlocked); return; }
      if a.gas.SimulationReverts? { CloseIntent(i, Reverted); return; }
      var gas := GasLimit(a.gas);
      var fees := NextFees(policy, r, bump, Estimated(a.fees));
      var allowed := CheckCaps(i, gas, fees);
      if allowed { ready, k := SignAndStore(i, gas, fees, a); }
    }

    /** Asks for every attempt's receipt in order and stops at the first one the node knows. */
    method Reconcile(i: nat, probes: seq<Probe>, latestKnown: bool) returns (ok: bool)
      requires Valid() && i < |rows|
      modifies this`rows
      ensures var o := ReconcileIntent(old(State()), i, probes, latestKnown); State() == o.state && ok == o.ok
      ensures Valid() && |rows| == old(|rows|) && |rows[i].attempts| == old(|rows[i].attempts|)
    {
      hide Inv, MarkMinedSuccess, MarkMinedRevert;
      ReconcileKeepsInv(policy, State(), i, probes, latestKnown);
      var r := rows[i];
      if !Active(r.status) { return true; }
      var k := 0;
      while k < |r.attempts|
        invariant k <= |r.attempts| && rows == old(rows)
        invariant ScanFrom(mined, r.attempts, probes, 0) == ScanFrom(mined, r.attempts, probes, k)
      {
        if ProbeAt(probes, k) == Broken { return false; }
        if ProbeAt(probes, k) == Answer {
          var slot := Slot(r.attempts[k].tx.lane, r.attempts[k].tx.nonce);
          if slot in mined && mined[slot] == Ours(r.attempts[k].tx, true) {
            MarkEvmMinedSuccess(i, k);
            return true;
          } else if slot in mined && mined[slot] == Ours(r.attempts[k].tx, false) {
            MarkEvmMinedRevert(i, k);
            return true;
          }
        }
        k := k + 1;
      }
      ok := r.attempts == [] || r.nonce.None? || latestKnown;
    }

    method SendAttempt(i: nat, k: nat, send: SendAnswer) returns (ok: bool)
      requires Valid() && i < |rows| && k < |rows[i].attempts|
      requires Active(rows[i].status) || (rows[i].status == Reverted && rows[i].nonce.Some?)
      modifies this`rows, this`sent
      ensures var o := BroadcastAttempt(old(State()), i, k, send); State() == o.state && ok == o.ok
      ensures Valid() && |rows| == old(|rows|)
    {
      BroadcastKeepsInv(policy, State(), i, k, send);
      match send {
        case Accepted =>
          sent := sent + {rows[i].attempts[k].tx};
          MarkEvmAttemptBroadcast(i, k);
          ok := true;
        case AlreadyKnown =>
          sent := sent + {rows[i].attempts[k].tx};
          MarkEvmAttemptBroadcast(i, k);
          ok := true;
        case LostReply =>
          sent := sent + {rows[i].attempts[k].tx};
          ok := false;
        case Refused =>
          ok := false;
        case NonceTooLow(probes, latestKnown) =>
          ok := Reconcile(i, probes, latestKnown);
          if !ok { return; }
          if rows[i].status == Confirmed || rows[i].status == Reverted { return; }
          ok := false;
          if latestKnown { rows := rows[i := rows[i].(status := NonceConflict)]; }
      }
    }

    method ReplacePendingTransaction(i: nat, calldata: nat, customBump: nat, a: PrepareAnswers, send: SendAnswer)
      requires Valid() && i < |rows|
      modifies this`rows, this`sent
      ensures State() == ReplacePending(policy, old(State()), i, calldata, customBump, a, send) && Valid()
    {
      hide Inv, Prepare, BroadcastAttempt;
      if rows[i].status != Pending && rows[i].status != Dispatching { return; }
      if rows[i].attempts == [] { return; }
      var ready, k := PrepareAttempt(i, calldata, Some(customBump), a);
      if ready { var _ := SendAttempt(i, k, send); }
    }

    /** Startup recovery visits the intents that were active on the chain and stops at the first exception. */
    method RecoverOnStartup(answers: seq<RecoveryAnswer>) returns (ok: bool)
      requires Valid()
      modifies this`rows, this`sent
      ensures var o := RecoverFrom(old(State()), 0, lane, answers); State() == o.state && ok == o.ok
      ensures Valid()
    {
      hide Inv, BroadcastAttempt, ReconcileIntent;
      var i := 0;
      while i < |rows|
        invariant Valid() && i <= |rows|
        invariant RecoverFrom(old(State()), 0, lane, answers) == RecoverFrom(State(), i, lane, answers)
        decreases |rows| - i
      {
        if Active(rows[i].status) && rows[i].lane.chain == lane.chain {
          var one := RecoverIntent(i, RecoveryAnswerAt(answers, i));
          if !one { return false; }
        }
        i := i + 1;
      }
      ok := true;
    }

    method RecoverIntent(i: nat, a: RecoveryAnswer) returns (ok: bool)
      requires Valid() && i < |rows| && Active(rows[i].status)
      modifies this`rows, this`sent
      ensures var o := RecoverOne(old(State()), i, lane, a); State() == o.state && ok == o.ok
      ensures Valid() && |rows| == old(|rows|)
    {
      hide Inv, BroadcastAttempt, ReconcileIntent;
      var unbroadcast := FirstPrepared(rows[i].attempts, 0);
      if unbroadcast.Some? {
        if rows[i].lane != lane { return false; }
        ok := SendAttempt(i, unbroadcast.value, a.send);
        if !ok { return; }
      }
      ok := Reconcile(i, a.probes, a.latestKnown);
    }

    /** `executeIntent` up to its confirmation wait. */
    method Execute(q: Request, probes: seq<Probe>, latestKnown: bool, a: PrepareAnswers, send: SendAnswer)
      requires Valid()
      modifies this`rows, this`sent
      ensures State() == Step(policy, old(State()), Event.Execute(lane, q, probes, latestKnown, a, send)) && Valid()
    {
      GetOrCreateKeepsInv(policy, State(), lane, q);
      StepKeepsInv(policy, State(), Event.Execute(lane, q, probes, latestKnown, a, send));
      var found := FindKey(rows, q.key);
      if found.None? {
        rows := rows + [NewIntent(lane, q)];
        found := FindKey(rows, q.key);
      }
      var i := found.value;
      if rows[i].lane != lane || !Active(rows[i].status) { return; }
      Dispatch(i, q.calldata, probes, latestKnown, a, send);
    }

    method Dispatch(i: nat, calldata: nat, probes: seq<Probe>, latestKnown: bool, a: PrepareAnswers, send: SendAnswer)
      requires Valid() && i < |rows| && Active(rows[i].status)
      modifies this`rows, this`sent
      ensures State() == ExecuteIntent(policy, old(State()), i, calldata, probes, latestKnown, a, send) && Valid()
    {
      ExecuteKeepsInv(policy, State(), i, calldata, probes, latestKnown, a, send);
      var before := rows[i].attempts;
      assert RowOk(policy, mined, rows[i]);
      assert before != [] ==> rows[i].nonce.Some?;
      hide Inv, Prepare, BroadcastAttempt, RowOk;
      if before == [] {
        var ready, k := PrepareAttempt(i, calldata, None, a);
        if ready { var _ := SendAttempt(i, k, send); }
      } else {
        var ok := Reconcile(i, probes, latestKnown);
        if !ok || rows[i].status == Confirmed { return; }
        // the attempts were read before the reconciliation
        var last := |before| - 1;
        if before[last].status == Prepared && calldata == before[last].tx.data { var _ := SendAttempt(i, last, send); }
      }
    }
  }
}
