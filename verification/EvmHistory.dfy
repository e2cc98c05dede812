/** How the rows may change from one step to the next: nothing terminal moves and new nonces are fresh. */
module EvmHistory {
  import opened Wrappers
  import opened EvmTypes
  import opened EvmEngine
  import opened EvmInvariant

  /** Strictly above every nonce that any intent of the lane still holds, dead or alive. */
  predicate Fresh(rows: seq<Intent>, lane: Lane, n: nat) {
    forall j :: 0 <= j < |rows| && rows[j].lane == lane && rows[j].nonce.Some? ==> rows[j].nonce.value < n
  }

  /** No smaller nonce from the pending count on would have been free: nothing is skipped. */
  predicate Gapless(rows: seq<Intent>, lane: Lane, pending: nat, n: nat) {
    forall m :: pending <= m < n ==> !Fresh(rows, lane, m)
  }

  /** What a step heard from the node: the pending count, and whether the fee estimate was in order. */
  datatype Told = Told(pending: Option<nat>, priced: bool)

  const Nothing := Told(None, true)

  function Heard(a: PrepareAnswers): Told {
    Told(a.pending, Estimated(a.fees).maxFee >= Estimated(a.fees).tip)
  }

  /** The maximum fee of every attempt covers its tip. */
  predicate Ordered(r: Intent) {
    forall k :: 0 <= k < |r.attempts| ==> r.attempts[k].tx.maxFee >= r.attempts[k].tx.tip
  }

  predicate ExtendsTxs(a: seq<Attempt>, b: seq<Attempt>) {
    |a| <= |b| && forall k :: 0 <= k < |a| ==> a[k].tx == b[k].tx && a[k].number == b[k].number
  }

  /**
   One row before and after a step on the table `rows`: stored transactions
   stay, a terminal row is final, a nonce is only gained fresh, and fees stay
   in order as long as the node's estimates are.
   */
  predicate Evolves(rows: seq<Intent>, told: Told, r: Intent, r': Intent) {
    && r'.key == r.key && r'.lane == r.lane && r'.target == r.target && r'.calldata == r.calldata && r'.value == r.value
    && ExtendsTxs(r.attempts, r'.attempts)
    && (!Active(r.status) ==>
          r'.status == r.status && r'.nonce == r.nonce && r'.canonical == r.canonical && |r'.attempts| == |r.attempts|)
    && (r.nonce.Some? ==> r'.nonce == r.nonce || r'.nonce == None)
    && (r.nonce.None? && r'.nonce.Some? ==>
          && told.pending.Some? && r'.nonce.value >= told.pending.value && Fresh(rows, r.lane, r'.nonce.value)
          && Gapless(rows, r.lane, told.pending.value, r'.nonce.value))
    && (told.priced && Ordered(r) ==> Ordered(r'))
  }

  predicate AllEvolve(base: seq<Intent>, told: Told, rows: seq<Intent>, rows': seq<Intent>) {
    |rows| == |rows'| && forall i :: 0 <= i < |rows| ==> Evolves(base, told, rows[i], rows'[i])
  }

  /** After a second step that gains no nonce, the composition still evolves. */
  lemma EvolveTwice(base: seq<Intent>, told: Told, a: seq<Intent>, b: seq<Intent>, c: seq<Intent>)
    requires AllEvolve(base, told, a, b) && AllEvolve(base, Nothing, b, c)
    ensures AllEvolve(base, told, a, c)
  {
    forall i | 0 <= i < |a|
      ensures Evolves(base, told, a[i], c[i])
    {
      assert Evolves(base, told, a[i], b[i]) && Evolves(base, Nothing, b[i], c[i]);
    }
  }

  lemma OneEvolves(base: seq<Intent>, told: Told, rows: seq<Intent>, i: nat, r': Intent)
    requires i < |rows| && Evolves(base, told, rows[i], r')
    ensures AllEvolve(base, told, rows, rows[i := r'])
  {
  }

  /** The next nonce is at least the pending count and above everything the lane holds: dead rows never hide one. */
  lemma CandidateIsFresh(rows: seq<Intent>, lane: Lane, pending: nat)
    requires forall j :: 0 <= j < |rows| ==> StatusOk(rows[j])
    ensures var n := Candidate(rows, lane, pending);
      n >= pending && Fresh(rows, lane, n) && Gapless(rows, lane, pending, n)
  {
    forall j | 0 <= j < |rows| && rows[j].lane == lane && rows[j].nonce.Some?
      ensures Counts(rows[j], lane)
    {
      assert StatusOk(rows[j]);
    }
    var highest := HighestHeld(rows, lane);
    forall m | pending <= m < Candidate(rows, lane, pending)
      ensures !Fresh(rows, lane, m)
    {
      var j :| 0 <= j < |rows| && Counts(rows[j], lane) && rows[j].nonce.value == highest;
      assert rows[j].nonce.value >= m;
    }
  }

  /** Reservation refuses exactly when another intent holds a bare nonce; the unique index is never hit. */
  lemma ReserveRefusesExactly(p: Policy, s: Engine, i: nat, pending: nat)
    requires Inv(p, s) && i < |s.rows| && s.rows[i].nonce.None?
    ensures Reserve(s.rows, i, pending).None? <==> AnotherUnresolved(s.rows, i, s.rows[i].lane)
    ensures Reserve(s.rows, i, pending).Some? ==>
      var n := Reserve(s.rows, i, pending).value[i].nonce.value;
      n >= pending && Fresh(s.rows, s.rows[i].lane, n) && Gapless(s.rows, s.rows[i].lane, pending, n)
  {
    forall j | 0 <= j < |s.rows|
      ensures StatusOk(s.rows[j])
    {
      assert RowOk(p, s.mined, s.rows[j]);
    }
    CandidateIsFresh(s.rows, s.rows[i].lane, pending);
  }

  lemma ReconcileEvolves(base: seq<Intent>, s: Engine, i: nat, probes: seq<Probe>, latestKnown: bool)
    requires i < |s.rows|
    ensures AllEvolve(base, Nothing, s.rows, ReconcileIntent(s, i, probes, latestKnown).state.rows)
  {
    var s' := ReconcileIntent(s, i, probes, latestKnown).state;
    assert Evolves(base, Nothing, s.rows[i], s'.rows[i]);
    OneEvolves(base, Nothing, s.rows, i, s'.rows[i]);
  }

  lemma BroadcastEvolves(base: seq<Intent>, s: Engine, i: nat, k: nat, send: SendAnswer)
    requires i < |s.rows| && k < |s.rows[i].attempts| && (Active(s.rows[i].status) || s.rows[i].status == Reverted)
    ensures AllEvolve(base, Nothing, s.rows, BroadcastAttempt(s, i, k, send).state.rows)
  {
    if send.NonceTooLow? {
      ReconcileEvolves(base, s, i, send.probes, send.latestKnown);
      var o := ReconcileIntent(s, i, send.probes, send.latestKnown);
      var r := o.state.rows[i];
      if o.ok && r.status != Confirmed && r.status != Reverted && send.latestKnown {
        OneEvolves(base, Nothing, s.rows, i, r.(status := NonceConflict));
      }
    } else {
      OneEvolves(base, Nothing, s.rows, i, MarkBroadcast(s.rows[i], k));
    }
  }

  lemma SignAndRecordEvolves(p: Policy, s: Engine, i: nat, gas: nat, fees: Fees, a: PrepareAnswers)
    requires Inv(p, s) && i < |s.rows| && Active(s.rows[i].status)
    requires Heard(a).priced && Ordered(s.rows[i]) ==> fees.maxFee >= fees.tip
    ensures AllEvolve(s.rows, Heard(a), s.rows, SignAndRecord(s, i, gas, fees, a).state.rows)
  {
    hide AnotherUnresolved, Fresh, HeldByAnother, Recorded, Candidate;
    var r := s.rows[i];
    var rows' := SignAndRecord(s, i, gas, fees, a).state.rows;
    if r.nonce.None? && a.pending.Some? { ReserveRefusesExactly(p, s, i, a.pending.value); }
    hide Inv;
    assert Evolves(s.rows, Heard(a), r, rows'[i]);
    OneEvolves(s.rows, Heard(a), s.rows, i, rows'[i]);
  }

  lemma BumpKeepsOrder(r: Intent, percent: nat, rpc: Fees)
    requires r.attempts != []
    ensures var next := ReplacementFees(r.attempts[|r.attempts| - 1].tx, percent, rpc);
      Ordered(r) && rpc.maxFee >= rpc.tip ==> next.maxFee >= next.tip
  {
    var prev := r.attempts[|r.attempts| - 1].tx;
    if prev.maxFee >= prev.tip {
      assert prev.maxFee * (100 + percent) >= prev.tip * (100 + percent);
    }
  }

  lemma PrepareEvolves(p: Policy, s: Engine, i: nat, calldata: nat, bump: Option<nat>, a: PrepareAnswers)
    requires Inv(p, s) && i < |s.rows| && Active(s.rows[i].status)
    requires bump.Some? <==> s.rows[i].attempts != []
    ensures AllEvolve(s.rows, Heard(a), s.rows, Prepare(p, s, i, calldata, bump, a).state.rows)
  {
    hide SignAndRecord, Inv, WithinCaps, ReplacementFees, Fresh;
    var r := s.rows[i];
    var gas := GasLimit(a.gas);
    var fees := NextFees(p, r, bump, Estimated(a.fees));
    if bump.Some? { BumpKeepsOrder(r, Max(p.minBump, bump.value), Estimated(a.fees)); }
    SignAndRecordEvolves(p, s, i, gas, fees, a);
    OneEvolves(s.rows, Heard(a), s.rows, i, Close(r, FeeCapBlocked));
    OneEvolves(s.rows, Heard(a), s.rows, i, Close(r, Reverted));
  }

  lemma PrepareAndSendEvolves(p: Policy, s: Engine, i: nat, calldata: nat, bump: Option<nat>, a: PrepareAnswers,
                              send: SendAnswer)
    requires Inv(p, s) && i < |s.rows| && Active(s.rows[i].status)
    requires bump.Some? <==> s.rows[i].attempts != []
    ensures AllEvolve(s.rows, Heard(a), s.rows, PrepareAndSend(p, s, i, calldata, bump, a, send).rows)
  {
    hide Inv, Prepare, AllEvolve, BroadcastAttempt;
    PrepareEvolves(p, s, i, calldata, bump, a);
    PrepareKeepsInv(p, s, i, calldata, bump, a);
    var n := Prepare(p, s, i, calldata, bump, a);
    if n.Ready? {
      BroadcastEvolves(s.rows, n.state, i, n.k, send);
      EvolveTwice(s.rows, Heard(a), s.rows, n.state.rows, BroadcastAttempt(n.state, i, n.k, send).state.rows);
    }
  }

  lemma NothingEvolves(base: seq<Intent>, told: Told, rows: seq<Intent>)
    ensures AllEvolve(base, told, rows, rows)
  {
  }

  lemma ExecuteEvolves(p: Policy, s: Engine, i: nat, calldata: nat, probes: seq<Probe>, latestKnown: bool,
                       a: PrepareAnswers, send: SendAnswer)
    requires Inv(p, s) && i < |s.rows|
    ensures AllEvolve(s.rows, Heard(a), s.rows,
                      ExecuteIntent(p, s, i, calldata, probes, latestKnown, a, send).rows)
  {
    hide Inv, PrepareAndSend, BroadcastAttempt, AllEvolve;
    var r := s.rows[i];
    NothingEvolves(s.rows, Heard(a), s.rows);
    if Active(r.status) {
      if r.attempts == [] {
        PrepareAndSendEvolves(p, s, i, calldata, None, a, send);
      } else {
        ReconcileEvolves(s.rows, s, i, probes, latestKnown);
        var o := ReconcileIntent(s, i, probes, latestKnown);
        EvolveTwice(s.rows, Heard(a), s.rows, s.rows, o.state.rows);
        if o.ok && o.state.rows[i].status != Confirmed {
          BroadcastEvolves(s.rows, o.state, i, |r.attempts| - 1, send);
          EvolveTwice(s.rows, Heard(a), s.rows, o.state.rows,
                      BroadcastAttempt(o.state, i, |r.attempts| - 1, send).state.rows);
        }
      }
    }
  }

  lemma RecoverOneEvolves(base: seq<Intent>, s: Engine, i: nat, lane: Lane, a: RecoveryAnswer)
    requires i < |s.rows| && Active(s.rows[i].status)
    ensures AllEvolve(base, Nothing, s.rows, RecoverOne(s, i, lane, a).state.rows)
  {
    hide BroadcastAttempt, ReconcileIntent, AllEvolve;
    NothingEvolves(base, Nothing, s.rows);
    match FirstPrepared(s.rows[i].attempts, 0) {
      case None => ReconcileEvolves(base, s, i, a.probes, a.latestKnown);
      case Some(k) =>
        BroadcastEvolves(base, s, i, k, a.send);
        var o := BroadcastAttempt(s, i, k, a.send);
        ReconcileEvolves(base, o.state, i, a.probes, a.latestKnown);
        EvolveTwice(base, Nothing, s.rows, o.state.rows,
                    ReconcileIntent(o.state, i, a.probes, a.latestKnown).state.rows);
    }
  }

  lemma {:induction false} RecoverEvolves(base: seq<Intent>, s: Engine, i: nat, lane: Lane,
                                          answers: seq<RecoveryAnswer>)
    requires i <= |s.rows|
    ensures AllEvolve(base, Nothing, s.rows, RecoverFrom(s, i, lane, answers).state.rows)
    decreases |s.rows| - i
  {
    hide RecoverOne, AllEvolve;
    NothingEvolves(base, Nothing, s.rows);
    if i < |s.rows| {
      if !Active(s.rows[i].status) || s.rows[i].lane.chain != lane.chain {
        RecoverEvolves(base, s, i + 1, lane, answers);
      } else {
        RecoverOneEvolves(base, s, i, lane, RecoveryAnswerAt(answers, i));
        var o := RecoverOne(s, i, lane, RecoveryAnswerAt(answers, i));
        if o.ok {
          RecoverEvolves(base, o.state, i + 1, lane, answers);
          EvolveTwice(base, Nothing, s.rows, o.state.rows, RecoverFrom(o.state, i + 1, lane, answers).state.rows);
        }
      }
    }
  }

  // -------------------------------------------------------------------- steps

  function HeardIn(e: Event): Told {
    match e
    case Execute(_, _, _, _, a, _) => Heard(a)
    case Replace(_, _, _, a, _) => Heard(a)
    case _ => Nothing
  }

  /** The table a step's methods start from: an `Execute` first creates the missing row. */
  function Base(s: Engine, e: Event): Engine {
    if e.Execute? then GetOrCreate(s, e.lane, e.request) else s
  }

  lemma StepEvolves(p: Policy, s: Engine, e: Event)
    requires Inv(p, s)
    ensures var b := Base(s, e).rows;
      s.rows <= b && AllEvolve(b, HeardIn(e), b, Step(p, s, e).rows)
  {
    hide Inv, ExecuteIntent, PrepareAndSend, RecoverFrom, ReconcileIntent, AllEvolve;
    var b := Base(s, e).rows;
    NothingEvolves(b, HeardIn(e), b);
    match e {
      case Execute(lane, q, probes, latestKnown, a, send) =>
        GetOrCreateKeepsInv(p, s, lane, q);
        var s1 := GetOrCreate(s, lane, q);
        var i := FindKey(s1.rows, q.key);
        if i.Some? { ExecuteEvolves(p, s1, i.value, q.calldata, probes, latestKnown, a, send); }
      case Replace(i, calldata, bump, a, send) =>
        if i < |s.rows| && (s.rows[i].status == Pending || s.rows[i].status == Dispatching)
           && s.rows[i].attempts != []
        {
          PrepareAndSendEvolves(p, s, i, calldata, Some(bump), a, send);
        }
      case Reconcile(i, probes, latestKnown) =>
        if i < |s.rows| { ReconcileEvolves(b, s, i, probes, latestKnown); }
      case Recover(lane, answers) => RecoverEvolves(b, s, 0, lane, answers);
      case _ =>
    }
  }
}
