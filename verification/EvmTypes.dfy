/**
 Rows and outcomes of the EVM transaction engine: one intent per economic
 action, its signed attempts, and what the node answers.
 */
module EvmTypes {
  import opened Wrappers

  /** A chain id and a signer; nonces are counted per lane. */
  datatype Lane = Lane(chain: nat, signer: nat)

  datatype Action = FundAction | RefundAction | ApproveAction

  datatype Key = Key(swap: nat, action: Action)

  /** A signed transaction. Its hash is injective, so the transaction stands for its own hash. */
  datatype Tx = Tx(lane: Lane, nonce: nat, to: nat, data: nat, value: nat, gas: nat, maxFee: nat, tip: nat)

  datatype AttemptStatus = Prepared | Broadcast | MinedSuccess | MinedRevert | Superseded

  datatype Attempt = Attempt(number: nat, tx: Tx, status: AttemptStatus)

  datatype IntentStatus =
    | Created | NonceReserved | Dispatching | Pending
    | Confirmed | Reverted | FeeCapBlocked | NonceConflict | IntentFailed

  datatype Intent = Intent(
    key: Key,
    lane: Lane,
    target: nat,
    calldata: nat,
    value: nat,
    nonce: Option<nat>,
    status: IntentStatus,
    canonical: Option<Tx>,
    attempts: seq<Attempt>)

  /** The one transaction a chain mines for a signer and nonce. */
  datatype Slot = Slot(lane: Lane, nonce: nat)

  datatype Fate = Ours(tx: Tx, success: bool) | Foreign

  /** The two tables, every transaction that ever reached the node, and what was mined. */
  datatype Engine = Engine(rows: seq<Intent>, sent: set<Tx>, mined: map<Slot, Fate>)

  datatype Policy = Policy(
    minBump: nat,
    maxReplacements: nat,
    maxFeeCap: nat,
    tipCap: nat,
    gasCap: nat,
    costCap: nat)

  // ------------------------------------------------------------ node answers

  datatype GasAnswer = Estimate(gas: nat) | SimulationReverts | EstimateUnavailable

  /** `estimateFeesPerGas` may fail or leave either field out. */
  datatype FeeAnswer = Fees(tip: Option<int>, maxFee: Option<int>) | FeesUnavailable

  datatype Fees = FeePair(tip: nat, maxFee: nat)

  /** Where the process dies inside `prepareAttempt`, if it does. */
  datatype CrashPoint = NoCrash | AfterReserve | AfterRecord

  /** `pending` is the pending transaction count, None if the query fails. */
  datatype PrepareAnswers = PrepareAnswers(gas: GasAnswer, fees: FeeAnswer, pending: Option<nat>, crash: CrashPoint)

  /** A receipt query answers truthfully, reports nothing, or fails. */
  datatype Probe = Answer | Missing | Broken

  datatype SendAnswer =
    | Accepted
    | LostReply
    | Refused
    | AlreadyKnown
    | NonceTooLow(probes: seq<Probe>, latestKnown: bool)

  datatype Request = Request(key: Key, target: nat, calldata: nat, value: nat)

  datatype RecoveryAnswer = RecoveryAnswer(send: SendAnswer, probes: seq<Probe>, latestKnown: bool)

  datatype Event =
    | Execute(lane: Lane, request: Request, probes: seq<Probe>, latestKnown: bool, prepare: PrepareAnswers,
              send: SendAnswer)
    | Replace(id: nat, calldata: nat, customBump: nat, prepare: PrepareAnswers, send: SendAnswer)
    | Reconcile(id: nat, probes: seq<Probe>, latestKnown: bool)
    | Recover(lane: Lane, answers: seq<RecoveryAnswer>)
    | Mine(tx: Tx, success: bool)
    | MineForeign(slot: Slot)
}
