/**
 Solvency against the snapshot: every obligation is counted exactly once, in R
 while its reservation is held and otherwise in P while its FUND is unresolved.
 */
module LiquiditySolvency {
  import opened Wrappers
  import opened SwapTypes
  import opened EvmTypes
  import opened LiquidityLedger
  import EvmEngine

  // ------------------------------------------------------------- consistency

  predicate SwapsOk(l: Ledger) {
    && (forall i, j :: 0 <= i < j < |l.swaps| ==> l.swaps[i].id != l.swaps[j].id)
    && (forall i :: 0 <= i < |l.swaps| ==> SwapOk(l.bookings, l.swaps[i]))
  }

  /** A swap and its reservation agree on owner, amount and token. */
  predicate SwapOk(bookings: seq<Booking>, s: Swap) {
    && s.booking.Some? && s.booking.value < |bookings|
    && bookings[s.booking.value].owner == s.id
    && bookings[s.booking.value].amount == s.amount
    && s.token == Some(bookings[s.booking.value].token)
  }

  predicate FundsOk(l: Ledger) {
    && (forall i, j :: 0 <= i < j < |l.funds| ==> l.funds[i].swap != l.funds[j].swap)
    && (forall i :: 0 <= i < |l.funds| ==> FindSwap(l.swaps, l.funds[i].swap).Some?)
  }

  predicate OwnersDistinct(bookings: seq<Booking>) {
    forall i, j :: 0 <= i < j < |bookings| ==> bookings[i].owner != bookings[j].owner
  }

  predicate Consistent(l: Ledger) { SwapsOk(l) && FundsOk(l) && OwnersDistinct(l.bookings) }

  // --------------------------------------------- the reference: what is owed

  /** Is there an unresolved FUND among `funds` for the execution that owns booking `b`? */
  predicate FundActive(funds: seq<FundIntent>, owner: nat) {
    exists j :: 0 <= j < |funds| && funds[j].swap == owner && EvmEngine.Active(funds[j].status)
  }

  /** A booking is owed while it is held or its owner's funding may still go through. */
  predicate Owed(b: Booking, funds: seq<FundIntent>) { b.status == Reserved || FundActive(funds, b.owner) }

  function OwedUnits(bookings: seq<Booking>, funds: seq<FundIntent>, token: nat): nat {
    if bookings == [] then 0
    else
      var last := bookings[|bookings| - 1];
      OwedUnits(bookings[..|bookings| - 1], funds, token)
        + (if last.token == token && Owed(last, funds) then last.amount else 0)
  }

  /** Adding an active FUND for the owner of `b` adds exactly that booking, if it was not owed before. */
  lemma {:induction false} OneMoreFund(bookings: seq<Booking>, funds: seq<FundIntent>, f: FundIntent, b: nat,
                                       token: nat)
    requires OwnersDistinct(bookings) && b < |bookings| && bookings[b].owner == f.swap && EvmEngine.Active(f.status)
    ensures OwedUnits(bookings, funds + [f], token) == OwedUnits(bookings, funds, token)
      + (if bookings[b].token == token && !Owed(bookings[b], funds) then bookings[b].amount else 0)
    decreases |bookings|
  {
    var n := |bookings| - 1;
    assert bookings[..n][..] == bookings[..n];
    if b == n {
      OtherOwners(bookings[..n], funds, f, token);
      assert (funds + [f])[|funds|] == f;
    } else {
      OneMoreFund(bookings[..n], funds, f, b, token);
      assert bookings[n].owner != f.swap;
      AnotherFund(funds, f, bookings[n].owner);
    }
  }

  lemma AnotherFund(funds: seq<FundIntent>, f: FundIntent, owner: nat)
    requires f.swap != owner || !EvmEngine.Active(f.status)
    ensures FundActive(funds + [f], owner) == FundActive(funds, owner)
  {
    if FundActive(funds, owner) {
      var j :| 0 <= j < |funds| && funds[j].swap == owner && EvmEngine.Active(funds[j].status);
      assert (funds + [f])[j] == funds[j];
    }
  }

  lemma {:induction false} OtherOwners(bookings: seq<Booking>, funds: seq<FundIntent>, f: FundIntent, token: nat)
    requires (forall i :: 0 <= i < |bookings| ==> bookings[i].owner != f.swap) || !EvmEngine.Active(f.status)
    ensures OwedUnits(bookings, funds + [f], token) == OwedUnits(bookings, funds, token)
    decreases |bookings|
  {
    if bookings != [] {
      var n := |bookings| - 1;
      OtherOwners(bookings[..n], funds, f, token);
      AnotherFund(funds, f, bookings[n].owner);
    }
  }

  lemma {:induction false} NoFunds(bookings: seq<Booking>, token: nat)
    ensures OwedUnits(bookings, [], token) == SumByStatus(bookings, token, Reserved)
    decreases |bookings|
  {
    if bookings != [] { NoFunds(bookings[..|bookings| - 1], token); }
  }

  /** Each obligation is counted once: R + P is the amount of exactly the bookings that are owed. */
  lemma {:induction false} CountedOnceUpTo(l: Ledger, funds: seq<FundIntent>, token: nat)
    requires Consistent(l) && funds <= l.funds
    ensures ReservedUnits(l, token) + SumExposure(l, funds, token) == OwedUnits(l.bookings, funds, token)
    decreases |funds|
  {
    if funds == [] {
      NoFunds(l.bookings, token);
    } else {
      var n := |funds| - 1;
      var rest, f := funds[..n], funds[n];
      assert rest <= l.funds && f == l.funds[n] && rest + [f] == funds;
      CountedOnceUpTo(l, rest, token);
      if EvmEngine.Active(f.status) {
        var s := l.swaps[FindSwap(l.swaps, f.swap).value];
        assert SwapOk(l.bookings, s);
        OneMoreFund(l.bookings, rest, f, s.booking.value, token);
        assert !FundActive(rest, f.swap);
      } else {
        OtherOwners(l.bookings, rest, f, token);
      }
    }
  }

  lemma CountedOnce(l: Ledger, token: nat)
    requires Consistent(l)
    ensures ReservedUnits(l, token) + UnresolvedUnits(l, token) == OwedUnits(l.bookings, l.funds, token)
  {
    CountedOnceUpTo(l, l.funds, token);
  }
}
