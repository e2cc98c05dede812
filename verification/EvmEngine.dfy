/**
 The transaction engine as functions on its tables: every method of the
 manager is one step, with the node's answers and the crash points given.
 */
module EvmEngine {
  import opened Wrappers
  import opened EvmTypes

  function Max(a: nat, b: nat): nat { if a > b then a else b }

  // ------------------------------------------------------------------ intents

  predicate Dead(s: IntentStatus) { s == Reverted || s == IntentFailed || s == FeeCapBlocked }

  predicate Active(s: IntentStatus) { s == Created || s == NonceReserved || s == Dispatching || s == Pending }

  predicate Touched(r: Intent) { exists k :: 0 <= k < |r.attempts| && r.attempts[k].status != Prepared }

  function WithStatus(a: seq<Attempt>, k: nat, s: AttemptStatus): seq<Attempt>
    requires k < |a|
  {
    a[k := a[k].(status := s)]
  }

  function MarkBroadcast(r: Intent, k: nat): Intent
    requires k < |r.attempts|
  {
    r.(attempts := WithStatus(r.attempts, k, Broadcast),
       status := if r.status == Created || r.status == NonceReserved || r.status == Dispatching then Pending
                 else r.status)
  }

  /** The winner is mined; every other attempt still open is superseded. */
  function SettleAttempts(a: seq<Attempt>, k: nat): (b: seq<Attempt>)
    requires k < |a|
    ensures |b| == |a|
    ensures forall j :: 0 <= j < |a| ==> b[j].number == a[j].number && b[j].tx == a[j].tx
  {
    seq(|a|, j requires 0 <= j < |a| =>
      if j == k then a[j].(status := MinedSuccess)
      else if a[j].status == Broadcast || a[j].status == Prepared then a[j].(status := Superseded)
      else a[j])
  }

  function MarkMinedSuccess(r: Intent, k: nat): Intent
    requires k < |r.attempts|
  {
    r.(attempts := SettleAttempts(r.attempts, k), status := Confirmed, canonical := Some(r.attempts[k].tx))
  }

  function MarkMinedRevert(r: Intent, k: nat): Intent
    requires k < |r.attempts|
  {
    r.(attempts := WithStatus(r.attempts, k, MinedRevert), status := Reverted)
  }

  /** A closed intent gives its nonce back unless an attempt may have reached the chain. */
  function Close(r: Intent, s: IntentStatus): Intent {
    r.(status := s, nonce := if Touched(r) then r.nonce else None)
  }

  // ------------------------------------------------------------------- nonces

  /** Does this row count when the next nonce of the lane is chosen? */
  predicate Counts(r: Intent, lane: Lane) {
    r.lane == lane && r.nonce.Some? && (!Dead(r.status) || Touched(r))
  }

  /** The highest nonce that counts, or -1. */
  function HighestHeld(rows: seq<Intent>, lane: Lane): (h: int)
    ensures h >= -1
    ensures forall j :: 0 <= j < |rows| && Counts(rows[j], lane) ==> rows[j].nonce.value <= h
    ensures h >= 0 ==> exists j :: 0 <= j < |rows| && Counts(rows[j], lane) && rows[j].nonce.value == h
  {
    if rows == [] then -1
    else
      var last := rows[|rows| - 1];
      var rest := HighestHeld(rows[..|rows| - 1], lane);
      if Counts(last, lane) && last.nonce.value > rest then last.nonce.value else rest
  }

  predicate Unresolved(r: Intent, lane: Lane) {
    r.lane == lane && r.nonce.Some? && r.attempts == [] && !Dead(r.status)
  }

  predicate AnotherUnresolved(rows: seq<Intent>, i: nat, lane: Lane) {
    exists j :: 0 <= j < |rows| && j != i && Unresolved(rows[j], lane)
  }

  predicate HeldByAnother(rows: seq<Intent>, i: nat, lane: Lane, nonce: nat) {
    exists j :: 0 <= j < |rows| && j != i && rows[j].lane == lane && rows[j].nonce == Some(nonce)
  }

  function Candidate(rows: seq<Intent>, lane: Lane, pending: nat): nat {
    Max(pending, HighestHeld(rows, lane) + 1)
  }

  /** Reserves a nonce in one transaction; None when it throws, by the guard or by the unique index. */
  function Reserve(rows: seq<Intent>, i: nat, pending: nat): (o: Option<seq<Intent>>)
    requires i < |rows|
    ensures o.Some? ==> |o.value| == |rows| && o.value[i].nonce.Some? && o.value[i].attempts == rows[i].attempts
  {
    var r := rows[i];
    if r.nonce.Some? then Some(rows)
    else if AnotherUnresolved(rows, i, r.lane) then None
    else
      var n := Candidate(rows, r.lane, pending);
      if HeldByAnother(rows, i, r.lane, n) then None
      else Some(rows[i := r.(nonce := Some(n), status := NonceReserved)])
  }

  // ----------------------------------------------------------------- attempts

  predicate Recorded(rows: seq<Intent>, tx: Tx) {
    exists i, k :: 0 <= i < |rows| && 0 <= k < |rows[i].attempts| && rows[i].attempts[k].tx == tx
  }

  function FindNumber(a: seq<Attempt>, n: nat): (k: Option<nat>)
    ensures k.Some? ==> k.value < |a| && a[k.value].number == n
    ensures k.None? ==> forall j :: 0 <= j < |a| ==> a[j].number != n
  {
    if a == [] then None
    else if a[|a| - 1].number == n then Some(|a| - 1)
    else FindNumber(a[..|a| - 1], n)
  }

  datatype Recording = Stored(rows: seq<Intent>, k: nat) | NotStored

  /** Stores an attempt before it is broadcast; transaction hashes are unique over the whole table. */
  function Record(rows: seq<Intent>, i: nat, n: nat, tx: Tx): (s: Recording)
    requires i < |rows|
    ensures s.Stored? ==> |s.rows| == |rows| && s.k < |s.rows[i].attempts|
  {
    var r := rows[i];
    var existing := FindNumber(r.attempts, n);
    if existing.Some? then Stored(rows, existing.value)
    else if Recorded(rows, tx) then NotStored
    else
      Stored(rows[i := r.(attempts := r.attempts + [Attempt(n, tx, Prepared)], status := Dispatching)], |r.attempts|)
  }

  // --------------------------------------------------------------------- fees

  const GWEI: nat := 1_000_000_000

  function Estimated(a: FeeAnswer): Fees {
    match a
    case FeesUnavailable => FeePair(GWEI, 2 * GWEI)
    case Fees(t, m) =>
      var tip: nat := if t.Some? && t.value > 0 then t.value else GWEI;
      FeePair(tip, if m.Some? && m.value > 0 then m.value else tip + GWEI)
  }

  function Bumped(fee: nat, percent: nat): nat { fee * (100 + percent) / 100 + 1 }

  function ReplacementFees(prev: Tx, percent: nat, rpc: Fees): Fees {
    FeePair(Max(Bumped(prev.tip, percent), rpc.tip), Max(Bumped(prev.maxFee, percent), rpc.maxFee))
  }

  function NextFees(p: Policy, r: Intent, bump: Option<nat>, rpc: Fees): Fees
    requires bump.Some? ==> r.attempts != []
  {
    if bump.None? then rpc
    else ReplacementFees(r.attempts[|r.attempts| - 1].tx, Max(p.minBump, bump.value), rpc)
  }

  function GasLimit(g: GasAnswer): nat {
    match g
    case Estimate(e) => e * 120 / 100
    case _ => 350_000
  }

  predicate WithinCaps(p: Policy, gas: nat, fees: Fees, value: nat) {
    && gas <= p.gasCap && fees.tip <= p.tipCap && fees.maxFee <= p.maxFeeCap
    && gas * fees.maxFee + value <= p.costCap
  }

  // ------------------------------------------------------------------ prepare

  /** The state a call leaves, and the attempt to broadcast if it got that far. */
  datatype Preparation = Ready(state: Engine, k: nat) | Stopped(state: Engine)

  function Update(s: Engine, i: nat, r: Intent): Engine
    requires i < |s.rows|
  {
    s.(rows := s.rows[i := r])
  }

  /** Signs with the reserved nonce and stores the attempt, reserving the nonce first if there is none. */
  function SignAndRecord(s: Engine, i: nat, gas: nat, fees: Fees, a: PrepareAnswers): (n: Preparation)
    requires i < |s.rows|
    ensures |n.state.rows| == |s.rows| && (n.Ready? ==> n.k < |n.state.rows[i].attempts|)
  {
    var r := s.rows[i];
    if r.nonce.None? && (AnotherUnresolved(s.rows, i, r.lane) || a.pending.None?) then Stopped(s)
    else
      var reserved := Reserve(s.rows, i, if a.pending.Some? then a.pending.value else 0);
      if reserved.None? then Stopped(s)
      else
        var s1 := s.(rows := reserved.value);
        if a.crash == AfterReserve then Stopped(s1)
        else
          var r1 := s1.rows[i];
          var tx := Tx(r.lane, r1.nonce.value, r.target, r.calldata, r.value, gas, fees.maxFee, fees.tip);
          match Record(s1.rows, i, |r.attempts| + 1, tx)
          case NotStored => Stopped(s1)
          case Stored(rows, k) =>
            if a.crash == AfterRecord then Stopped(s1.(rows := rows)) else Ready(s1.(rows := rows), k)
  }

  function Prepare(p: Policy, s: Engine, i: nat, calldata: nat, bump: Option<nat>, a: PrepareAnswers): (n: Preparation)
    requires i < |s.rows| && (bump.Some? ==> s.rows[i].attempts != [])
    ensures |n.state.rows| == |s.rows| && (n.Ready? ==> n.k < |n.state.rows[i].attempts|)
  {
    var r := s.rows[i];
    if calldata != r.calldata then Stopped(s)
    else if |r.attempts| + 1 > p.maxReplacements + 1 then Stopped(Update(s, i, Close(r, FeeCapBlocked)))
    else if a.gas.SimulationReverts? then Stopped(Update(s, i, Close(r, Reverted)))
    else
      var gas := GasLimit(a.gas);
      var fees := NextFees(p, r, bump, Estimated(a.fees));
      if !WithinCaps(p, gas, fees, r.value) then Stopped(Update(s, i, Close(r, FeeCapBlocked)))
      else SignAndRecord(s, i, gas, fees, a)
  }

  // ---------------------------------------------------------------- reconcile

  predicate MinedAs(mined: map<Slot, Fate>, tx: Tx, success: bool) {
    var slot := Slot(tx.lane, tx.nonce);
    slot in mined && mined[slot] == Ours(tx, success)
  }

  datatype Scan = Receipt(k: nat, success: bool) | NoReceipt | ScanFailed

  function ProbeAt(probes: seq<Probe>, k: nat): Probe { if k < |probes| then probes[k] else Answer }

  /** Asks for the receipt of each attempt in turn, from attempt `k` on. */
  function ScanFrom(mined: map<Slot, Fate>, a: seq<Attempt>, probes: seq<Probe>, k: nat): (r: Scan)
    requires k <= |a|
    ensures r.Receipt? ==> k <= r.k < |a| && MinedAs(mined, a[r.k].tx, r.success)
    decreases |a| - k
  {
    if k == |a| then NoReceipt
    else if ProbeAt(probes, k) == Broken then ScanFailed
    else if ProbeAt(probes, k) == Answer && MinedAs(mined, a[k].tx, true) then Receipt(k, true)
    else if ProbeAt(probes, k) == Answer && MinedAs(mined, a[k].tx, false) then Receipt(k, false)
    else ScanFrom(mined, a, probes, k + 1)
  }

  /** The state a call leaves and whether it returned normally. */
  datatype Outcome = Outcome(state: Engine, ok: bool)

  function ReconcileIntent(s: Engine, i: nat, probes: seq<Probe>, latestKnown: bool): (o: Outcome)
    requires i < |s.rows|
    ensures |o.state.rows| == |s.rows| && |o.state.rows[i].attempts| == |s.rows[i].attempts|
  {
    var r := s.rows[i];
    if !Active(r.status) then Outcome(s, true)
    else
      match ScanFrom(s.mined, r.attempts, probes, 0)
      case Receipt(k, success) =>
        Outcome(Update(s, i, if success then MarkMinedSuccess(r, k) else MarkMinedRevert(r, k)), true)
      case NoReceipt => Outcome(s, r.attempts == [] || r.nonce.None? || latestKnown)
      case ScanFailed => Outcome(s, false)
  }

  // ---------------------------------------------------------------- broadcast

  function Sent(s: Engine, tx: Tx): Engine { s.(sent := s.sent + {tx}) }

  function BroadcastAttempt(s: Engine, i: nat, k: nat, send: SendAnswer): (o: Outcome)
    requires i < |s.rows| && k < |s.rows[i].attempts|
    ensures |o.state.rows| == |s.rows|
  {
    var tx := s.rows[i].attempts[k].tx;
    match send
    case Accepted => Outcome(Update(Sent(s, tx), i, MarkBroadcast(s.rows[i], k)), true)
    case AlreadyKnown => Outcome(Update(Sent(s, tx), i, MarkBroadcast(s.rows[i], k)), true)
    case LostReply => Outcome(Sent(s, tx), false)
    case Refused => Outcome(s, false)
    case NonceTooLow(probes, latestKnown) =>
      var o := ReconcileIntent(s, i, probes, latestKnown);
      var r := o.state.rows[i];
      if !o.ok then o
      else if r.status == Confirmed || r.status == Reverted then o
      else if !latestKnown then Outcome(o.state, false)
      else Outcome(Update(o.state, i, r.(status := NonceConflict)), false)
  }

  // ----------------------------------------------------------- manager methods

  function FindKey(rows: seq<Intent>, key: Key): (i: Option<nat>)
    ensures i.Some? ==> i.value < |rows| && rows[i.value].key == key
    ensures i.None? ==> forall j :: 0 <= j < |rows| ==> rows[j].key != key
  {
    if rows == [] then None
    else if rows[|rows| - 1].key == key then Some(|rows| - 1)
    else FindKey(rows[..|rows| - 1], key)
  }

  function NewIntent(lane: Lane, q: Request): Intent {
    Intent(q.key, lane, q.target, q.calldata, q.value, None, Created, None, [])
  }

  function GetOrCreate(s: Engine, lane: Lane, q: Request): Engine {
    if FindKey(s.rows, q.key).Some? then s else s.(rows := s.rows + [NewIntent(lane, q)])
  }

  function PrepareAndSend(p: Policy, s: Engine, i: nat, calldata: nat, bump: Option<nat>, a: PrepareAnswers,
                          send: SendAnswer): Engine
    requires i < |s.rows| && (bump.Some? ==> s.rows[i].attempts != [])
  {
    match Prepare(p, s, i, calldata, bump, a)
    case Stopped(s1) => s1
    case Ready(s1, k) => BroadcastAttempt(s1, i, k, send).state
  }

  /** `executeIntent` up to the confirmation wait, which consists of `Reconcile` and `Replace` steps. */
  function ExecuteIntent(p: Policy, s: Engine, i: nat, calldata: nat, probes: seq<Probe>, latestKnown: bool,
                         a: PrepareAnswers, send: SendAnswer): Engine
    requires i < |s.rows|
  {
    var r := s.rows[i];
    if !Active(r.status) then s
    else if r.attempts == [] then PrepareAndSend(p, s, i, calldata, None, a, send)
    else
      var o := ReconcileIntent(s, i, probes, latestKnown);
      var last := |r.attempts| - 1;
      if !o.ok || o.state.rows[i].status == Confirmed then o.state
      else if r.attempts[last].status == Prepared && calldata == r.attempts[last].tx.data then
        BroadcastAttempt(o.state, i, last, send).state
      else o.state
  }

  function ReplacePending(p: Policy, s: Engine, i: nat, calldata: nat, customBump: nat, a: PrepareAnswers,
                          send: SendAnswer): Engine
    requires i < |s.rows|
  {
    var r := s.rows[i];
    if (r.status == Pending || r.status == Dispatching) && r.attempts != []
    then PrepareAndSend(p, s, i, calldata, Some(customBump), a, send)
    else s
  }

  function FirstPrepared(a: seq<Attempt>, k: nat): (f: Option<nat>)
    requires k <= |a|
    ensures f.Some? ==> k <= f.value < |a| && a[f.value].status == Prepared
    ensures f.None? ==> forall j :: k <= j < |a| ==> a[j].status != Prepared
    decreases |a| - k
  {
    if k == |a| then None else if a[k].status == Prepared then Some(k) else FirstPrepared(a, k + 1)
  }

  /** One active intent at startup: rebroadcast the attempt that never went out, then reconcile. */
  function RecoverOne(s: Engine, i: nat, lane: Lane, a: RecoveryAnswer): (o: Outcome)
    requires i < |s.rows|
    ensures |o.state.rows| == |s.rows|
  {
    var r := s.rows[i];
    match FirstPrepared(r.attempts, 0)
    case None => ReconcileIntent(s, i, a.probes, a.latestKnown)
    case Some(k) =>
      if r.lane != lane then Outcome(s, false)
      else
        var o := BroadcastAttempt(s, i, k, a.send);
        if !o.ok then o else ReconcileIntent(o.state, i, a.probes, a.latestKnown)
  }

  function RecoveryAnswerAt(answers: seq<RecoveryAnswer>, i: nat): RecoveryAnswer {
    if i < |answers| then answers[i] else RecoveryAnswer(Refused, [], false)
  }

  /** Recovery visits the active intents of the chain in creation order and stops at the first exception. */
  function RecoverFrom(s: Engine, i: nat, lane: Lane, answers: seq<RecoveryAnswer>): Outcome
    requires i <= |s.rows|
    decreases |s.rows| - i
  {
    if i == |s.rows| then Outcome(s, true)
    else if !Active(s.rows[i].status) || s.rows[i].lane.chain != lane.chain then RecoverFrom(s, i + 1, lane, answers)
    else
      var o := RecoverOne(s, i, lane, RecoveryAnswerAt(answers, i));
      if !o.ok then o else RecoverFrom(o.state, i + 1, lane, answers)
  }

  // --------------------------------------------------------------------- runs

  function Step(p: Policy, s: Engine, e: Event): Engine {
    match e
    case Execute(lane, q, probes, latestKnown, a, send) =>
      var s1 := GetOrCreate(s, lane, q);
      var i := FindKey(s1.rows, q.key);
      // callers derive the key from a swap whose intents all live on the manager's own lane
      if i.Some? && s1.rows[i.value].lane == lane
      then ExecuteIntent(p, s1, i.value, q.calldata, probes, latestKnown, a, send)
      else s1
    case Replace(i, calldata, bump, a, send) =>
      if i < |s.rows| then ReplacePending(p, s, i, calldata, bump, a, send) else s
    case Reconcile(i, probes, latestKnown) =>
      if i < |s.rows| then ReconcileIntent(s, i, probes, latestKnown).state else s
    case Recover(lane, answers) => RecoverFrom(s, 0, lane, answers).state
    case Mine(tx, success) =>
      var slot := Slot(tx.lane, tx.nonce);
      if tx in s.sent && slot !in s.mined then s.(mined := s.mined[slot := Ours(tx, success)]) else s
    case MineForeign(slot) =>
      if slot !in s.mined then s.(mined := s.mined[slot := Foreign]) else s
  }

  function Run(p: Policy, s: Engine, events: seq<Event>): Engine
    decreases |events|
  {
    if events == [] then s else Run(p, Step(p, s, events[0]), events[1..])
  }

  const Start := Engine([], {}, map[])
}
