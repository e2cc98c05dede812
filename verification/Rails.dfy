/**
 The two rails as the coordinator's local backends implement them: what one
 call does to the invoice or to the HTLC, and whether it returns or throws.
 */
module Rails {
  import opened SwapTypes

  /** The state after a call and whether the call returned normally. */
  datatype Effect<+S> = Effect(state: S, ok: bool)

  function SettleInvoice(ln: Lightning): Effect<Lightning> {
    match ln
    case Accepted => Effect(Settled, true)
    case Settled => Effect(Settled, true)
    case _ => Effect(ln, false)
  }

  function CancelInvoice(ln: Lightning): Effect<Lightning> {
    match ln
    case Open => Effect(Canceled, true)
    case Accepted => Effect(Canceled, true)
    case Canceled => Effect(Canceled, true)
    case _ => Effect(ln, false)
  }

  function HoldPayment(ln: Lightning): Effect<Lightning> {
    if ln == Open then Effect(Accepted, true) else Effect(ln, false)
  }

  /** HTLC together with the chain's block number, which every transaction advances. */
  datatype Chain = Chain(htlc: Htlc, block: nat)

  function FundHtlc(c: Chain, lock: int): Effect<Chain> {
    if c.htlc == Empty then Effect(Chain(Locked(lock), c.block + 1), true) else Effect(c, false)
  }

  function ClaimHtlc(c: Chain): Effect<Chain> {
    if c.htlc.Locked?
    then Effect(Chain(Claimed(c.htlc.lock, ClaimTx(c.block + 1), c.block + 1), c.block + 2), true)
    else Effect(c, false)
  }

  function RefundHtlc(c: Chain, now: int): Effect<Chain> {
    if c.htlc.Locked? && now >= c.htlc.lock
    then Effect(Chain(Refunded(c.htlc.lock, RefundTx(c.block + 1), c.block + 1), c.block + 2), true)
    else Effect(c, false)
  }

  /** Confirmations of a transaction mined at `at` once the chain has reached `block`. */
  predicate Confirmed(block: nat, at: nat, required: nat) {
    block - at + 1 >= required
  }

  /** Claim evidence is accepted only for the transaction that claimed this HTLC. */
  predicate ClaimEvidenceFinal(c: Chain, tx: TxHash, required: nat) {
    c.htlc.Claimed? && c.htlc.tx == tx && Confirmed(c.block, c.htlc.atBlock, required)
  }

  predicate RefundEvidenceFinal(c: Chain, tx: TxHash, required: nat) {
    c.htlc.Refunded? && c.htlc.tx == tx && Confirmed(c.block, c.htlc.atBlock, required)
  }
}
