/**
 The two local backends with their tables updated in place. Seen one swap at a
 time they are the rails the coordinator is proved against, and claim and
 refund evidence is final exactly when the rail says so.
 */
module RailBackends {
  import opened Wrappers
  import opened SwapTypes
  import opened Rails

  /** SHA-256, injective: a hash is the preimage it was computed from. */
  datatype Hash = Sha256(preimage: nat)

  // --------------------------------------------------------------- Lightning

  class LightningBackend {
    /** Invoices by payment hash. */
    var invoices: map<Hash, Lightning>

    predicate Valid()
      reads this
    {
      forall h :: h in invoices ==> invoices[h] != Absent
    }

    /** What an observer of one payment hash sees. */
    function Invoice(h: Hash): Lightning
      reads this
    {
      if h in invoices then invoices[h] else Absent
    }

    constructor ()
      ensures Valid() && forall h :: Invoice(h) == Absent
    {
      invoices := map[];
    }

    method CreateHoldInvoice(h: Hash) returns (ok: bool)
      requires Valid()
      modifies this
      ensures Valid() && ok == (old(Invoice(h)) == Absent)
      ensures forall g :: Invoice(g) == if g == h && ok then Open else old(Invoice(g))
    {
      if h in invoices { return false; }
      invoices := invoices[h := Open];
      ok := true;
    }

    /** Whoever knows the preimage can settle exactly the invoice locked to its hash. */
    method SettleHoldInvoice(preimage: nat) returns (ok: bool)
      requires Valid()
      modifies this
      ensures Valid() && ok == SettleInvoice(old(Invoice(Sha256(preimage)))).ok
      ensures var h := Sha256(preimage);
        forall g :: Invoice(g) == if g == h then SettleInvoice(old(Invoice(g))).state else old(Invoice(g))
    {
      var h := Sha256(preimage);
      if h !in invoices { return false; }
      if invoices[h] == Canceled { return false; }
      if invoices[h] == Settled { return true; }
      if invoices[h] != Accepted { return false; }
      invoices := invoices[h := Settled];
      ok := true;
    }

    method CancelHoldInvoice(h: Hash) returns (ok: bool)
      requires Valid()
      modifies this
      ensures Valid() && ok == CancelInvoice(old(Invoice(h))).ok
      ensures forall g :: Invoice(g) == if g == h then CancelInvoice(old(Invoice(g))).state else old(Invoice(g))
    {
      if h !in invoices { return false; }
      if invoices[h] == Settled { return false; }
      if invoices[h] == Canceled { return true; }
      invoices := invoices[h := Canceled];
      ok := true;
    }

    method PayerHold(h: Hash) returns (ok: bool)
      requires Valid()
      modifies this
      ensures Valid() && ok == HoldPayment(old(Invoice(h))).ok
      ensures forall g :: Invoice(g) == if g == h then HoldPayment(old(Invoice(g))).state else old(Invoice(g))
    {
      if h !in invoices { return false; }
      if invoices[h] != Open { return false; }
      invoices := invoices[h := Accepted];
      ok := true;
    }
  }

  // --------------------------------------------------------------------- Base

  datatype StoredHtlc = StoredHtlc(hash: Hash, lock: int, amount: nat, completed: bool, refunded: bool, balance: nat)

  datatype Receipt = Receipt(swapKey: nat, block: nat, revealed: Option<nat>)

  /** What an evidence query answers; a final claim carries the revealed preimage. */
  datatype Evidence = Final(revealed: Option<nat>) | NotFinal | EvidenceError

  /** A stored HTLC and the rail state it stands for, with the transaction that ended it. */
  predicate RailMatches(receipts: map<TxHash, Receipt>, s: StoredHtlc, h: Htlc) {
    match h
    case Empty => false
    case Locked(lock) => lock == s.lock && !s.completed && !s.refunded && s.balance == s.amount
    case Claimed(lock, tx, at) =>
      && lock == s.lock && s.completed && !s.refunded && s.balance == 0
      && tx in receipts && receipts[tx].block == at && receipts[tx].revealed.Some?
      && Sha256(receipts[tx].revealed.value) == s.hash
    case Refunded(lock, tx, at) =>
      && lock == s.lock && !s.completed && s.refunded && s.balance == 0
      && tx in receipts && receipts[tx].block == at && receipts[tx].revealed == None
  }

  /** A receipt ended the HTLC it names, in a past block. */
  predicate ReceiptMatches(r: Receipt, tx: TxHash, block: nat, rails: map<nat, Htlc>) {
    && r.swapKey in rails && r.block <= block
    && (tx == if r.revealed.Some? then ClaimTx(r.block) else RefundTx(r.block))
    && (r.revealed.Some? ==> rails[r.swapKey].Claimed? && rails[r.swapKey].tx == tx)
    && (r.revealed.None? ==> rails[r.swapKey].Refunded? && rails[r.swapKey].tx == tx)
  }

  predicate Consistent(htlcs: map<nat, StoredHtlc>, receipts: map<TxHash, Receipt>, block: nat, rails: map<nat, Htlc>) {
    && rails.Keys == htlcs.Keys
    && (forall k :: k in htlcs ==> RailMatches(receipts, htlcs[k], rails[k]))
    && (forall tx :: tx in receipts ==> ReceiptMatches(receipts[tx], tx, block, rails))
  }

  class BaseBackend {
    var htlcs: map<nat, StoredHtlc>
    var receipts: map<TxHash, Receipt>
    var block: nat
    var timestamp: int
    /** Each HTLC as the coordinator's rail. */
    ghost var rails: map<nat, Htlc>

    ghost predicate Valid()
      reads this
    {
      Consistent(htlcs, receipts, block, rails)
    }

    ghost function Rail(k: nat): Chain
      reads this
    {
      Chain(if k in rails then rails[k] else Empty, block)
    }

    constructor (timestamp: int)
      ensures Valid() && this.timestamp == timestamp && block == 1000 && forall k :: Rail(k).htlc == Empty
    {
      htlcs, receipts, block := map[], map[], 1000;
      this.timestamp := timestamp;
      rails := map[];
    }

    method FundHtlc(k: nat, hash: Hash, lock: int, amount: nat) returns (ok: bool)
      requires Valid()
      modifies this
      ensures Valid() && timestamp == old(timestamp)
      ensures ok == Rails.FundHtlc(old(Rail(k)), lock).ok && Rail(k) == Rails.FundHtlc(old(Rail(k)), lock).state
      ensures forall j :: j != k ==> Rail(j).htlc == old(Rail(j)).htlc
    {
      if k in htlcs { return false; }
      block := block + 1;
      htlcs := htlcs[k := StoredHtlc(hash, lock, amount, false, false, amount)];
      rails := rails[k := Locked(lock)];
      ok := true;
    }

    /** A locked HTLC ends in a fresh transaction. */
    method End(k: nat, revealed: Option<nat>)
      requires Valid() && k in rails && rails[k].Locked?
      requires revealed.Some? ==> Sha256(revealed.value) == htlcs[k].hash
      modifies this
      ensures Valid() && timestamp == old(timestamp) && block == old(block) + 2
      ensures rails == old(rails)[k := Ended(old(rails)[k].lock, old(block) + 1, revealed)]
    {
      EndKeeps(htlcs, receipts, block, rails, k, revealed);
      block := block + 2;
      receipts := receipts[EndTx(block - 1, revealed) := Receipt(k, block - 1, revealed)];
      rails := rails[k := Ended(htlcs[k].lock, block - 1, revealed)];
      htlcs := htlcs[k := EndedHtlc(htlcs[k], revealed)];
    }

    method ClaimHtlc(k: nat, preimage: nat) returns (ok: bool)
      requires Valid()
      modifies this
      ensures Valid() && timestamp == old(timestamp)
      ensures ok == (Rails.ClaimHtlc(old(Rail(k))).ok && old(htlcs)[k].hash == Sha256(preimage))
      ensures Rail(k) == if ok then Rails.ClaimHtlc(old(Rail(k))).state else old(Rail(k))
      ensures forall j :: j != k ==> Rail(j).htlc == old(Rail(j)).htlc
    {
      if k !in htlcs { return false; }
      assert RailMatches(receipts, htlcs[k], rails[k]);
      if htlcs[k].completed { return false; }
      if htlcs[k].refunded { return false; }
      if Sha256(preimage) != htlcs[k].hash { return false; }
      End(k, Some(preimage));
      ok := true;
    }

    method RefundHtlc(k: nat) returns (ok: bool)
      requires Valid()
      modifies this
      ensures Valid() && timestamp == old(timestamp)
      ensures ok == Rails.RefundHtlc(old(Rail(k)), timestamp).ok
      ensures Rail(k) == Rails.RefundHtlc(old(Rail(k)), timestamp).state
      ensures forall j :: j != k ==> Rail(j).htlc == old(Rail(j)).htlc
    {
      if k !in htlcs { return false; }
      assert RailMatches(receipts, htlcs[k], rails[k]);
      if htlcs[k].completed { return false; }
      if htlcs[k].refunded { return false; }
      if timestamp < htlcs[k].lock { return false; }
      End(k, None);
      ok := true;
    }

    /**
     Claim evidence: final exactly when the rail of the transaction's own swap
     says so and the revealed preimage opens the expected hash lock.
     */
    method ExtractClaimEvidence(tx: TxHash, expected: Hash, required: nat) returns (e: Evidence)
      requires Valid()
      ensures e.Final? <==>
        tx in receipts && ClaimEvidenceFinal(Rail(receipts[tx].swapKey), tx, required)
        && htlcs[receipts[tx].swapKey].hash == expected
      ensures e.Final? ==> e.revealed.Some? && Sha256(e.revealed.value) == expected
      ensures e == NotFinal <==> tx in receipts && block - receipts[tx].block + 1 < required
    {
      if tx !in receipts { return EvidenceError; }
      var r := receipts[tx];
      if block - r.block + 1 < required { return NotFinal; }
      if !htlcs[r.swapKey].completed { return EvidenceError; }
      assert RailMatches(receipts, htlcs[r.swapKey], rails[r.swapKey]);
      if Sha256(r.revealed.value) != expected { return EvidenceError; }
      e := Final(r.revealed);
    }

    method VerifyRefundEvidence(tx: TxHash, required: nat) returns (e: Evidence)
      requires Valid()
      ensures e.Final? <==> tx in receipts && RefundEvidenceFinal(Rail(receipts[tx].swapKey), tx, required)
      ensures e == NotFinal <==> tx in receipts && block - receipts[tx].block + 1 < required
    {
      if tx !in receipts { return EvidenceError; }
      var r := receipts[tx];
      if block - r.block + 1 < required { return NotFinal; }
      assert RailMatches(receipts, htlcs[r.swapKey], rails[r.swapKey]);
      if !htlcs[r.swapKey].refunded { return EvidenceError; }
      e := Final(None);
    }

    /** The state an observer of the swap sees, as the contract status 0 to 3. */
    method ContractStatus(k: nat) returns (status: nat)
      requires Valid()
      ensures match Rail(k).htlc
              case Empty => status == 0
              case Locked(_) => status == 1
              case Claimed(_, _, _) => status == 2
              case Refunded(_, _, _) => status == 3
    {
      if k !in htlcs { return 0; }
      assert RailMatches(receipts, htlcs[k], rails[k]);
      if htlcs[k].completed { return 2; }
      if htlcs[k].refunded { return 3; }
      status := 1;
    }
  }

  function EndTx(block: nat, revealed: Option<nat>): TxHash {
    if revealed.Some? then ClaimTx(block) else RefundTx(block)
  }

  function Ended(lock: int, block: nat, revealed: Option<nat>): Htlc {
    if revealed.Some? then Claimed(lock, EndTx(block, revealed), block)
    else Refunded(lock, EndTx(block, revealed), block)
  }

  function EndedHtlc(s: StoredHtlc, revealed: Option<nat>): StoredHtlc {
    s.(completed := revealed.Some?, refunded := revealed.None?, balance := 0)
  }

  /** New evidence does not disturb the evidence of an HTLC that ended before. */
  lemma MatchSurvives(receipts: map<TxHash, Receipt>, s: StoredHtlc, h: Htlc, tx: TxHash, r: Receipt)
    requires RailMatches(receipts, s, h) && tx !in receipts
    ensures RailMatches(receipts[tx := r], s, h)
  {
  }

  /** Every other HTLC and its evidence stay as they are, because the transaction's block is new. */
  lemma EndKeeps(htlcs: map<nat, StoredHtlc>, receipts: map<TxHash, Receipt>, block: nat, rails: map<nat, Htlc>, k: nat,
                 revealed: Option<nat>)
    requires Consistent(htlcs, receipts, block, rails) && k in rails && rails[k].Locked?
    requires revealed.Some? ==> Sha256(revealed.value) == htlcs[k].hash
    ensures Consistent(htlcs[k := EndedHtlc(htlcs[k], revealed)],
                       receipts[EndTx(block + 1, revealed) := Receipt(k, block + 1, revealed)], block + 2,
                       rails[k := Ended(htlcs[k].lock, block + 1, revealed)])
    ensures htlcs[k].lock == rails[k].lock
  {
    var tx := EndTx(block + 1, revealed);
    var receipts' := receipts[tx := Receipt(k, block + 1, revealed)];
    assert RailMatches(receipts, htlcs[k], rails[k]);
    assert tx !in receipts;
    forall j | j in htlcs && j != k
      ensures RailMatches(receipts', htlcs[j], rails[j])
    {
      MatchSurvives(receipts, htlcs[j], rails[j], tx, receipts'[tx]);
    }
    forall t | t in receipts
      ensures receipts[t].swapKey != k
    {
      assert ReceiptMatches(receipts[t], t, block, rails);
    }
  }
}
