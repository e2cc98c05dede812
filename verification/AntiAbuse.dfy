/**
 Rolling-window admission: what one request does to the event table, and the
 limits that hold in every window of every run, whatever the clock does.
 */
module AntiAbuse {
  import opened Wrappers

  datatype Status = Admitted | Completed | Refunded | Cancelled | FailedSwap

  datatype Entry = Entry(key: nat, wallet: nat, destination: nat, usdc: nat, sats: nat, status: Status, created: int)

  datatype Limits = Limits(
    cooldown: nat,
    window: nat,
    walletCap: nat,
    destinationCap: nat,
    singleCap: nat,
    globalCap: nat,
    inFlightCap: nat)

  const IN_FLIGHT_MS: nat := 7_200_000

  datatype Request = Request(key: nat, wallet: nat, destination: nat, usdc: nat, sats: nat)

  datatype AdmissionError =
    | SingleSwapTooLarge | IdempotencyConflict | CooldownActive | WalletVolume(current: nat)
    | DestinationVolume(current: nat) | ConcurrentExposure(current: nat) | GlobalCapacity(current: nat)

  datatype Ticket = Ticket(entry: Entry, before: nat, after: nat, remaining: nat)

  /** The four sums a request is checked against. */
  datatype Scope = ByWallet(wallet: nat) | ByDestination(destination: nat) | InFlight | Everything

  predicate Counts(s: Scope, e: Entry) {
    match s
    case ByWallet(w) => e.wallet == w && e.status != FailedSwap
    case ByDestination(d) => e.destination == d && e.status != FailedSwap
    case InFlight => e.status == Admitted
    case Everything => e.status != FailedSwap
  }

  function Window(p: Limits, s: Scope): nat { if s.InFlight? then IN_FLIGHT_MS else p.window }

  function Cap(p: Limits, s: Scope): nat {
    match s
    case ByWallet(_) => p.walletCap
    case ByDestination(_) => p.destinationCap
    case InFlight => p.inFlightCap
    case Everything => p.globalCap
  }

  /** The volume of a scope created strictly after `cutoff`. */
  function Volume(events: seq<Entry>, s: Scope, cutoff: int): nat {
    if events == [] then 0
    else
      var last := events[|events| - 1];
      Volume(events[..|events| - 1], s, cutoff) + (if Counts(s, last) && last.created > cutoff then last.usdc else 0)
  }

  predicate CoolingDown(events: seq<Entry>, wallet: nat, cutoff: int) {
    exists i :: 0 <= i < |events| && events[i].wallet == wallet && events[i].created > cutoff
  }

  function FindKey(events: seq<Entry>, key: nat): (i: Option<nat>)
    ensures i.Some? ==> i.value < |events| && events[i.value].key == key
    ensures i.None? ==> forall j :: 0 <= j < |events| ==> events[j].key != key
  {
    if events == [] then None
    else if events[|events| - 1].key == key then Some(|events| - 1)
    else FindKey(events[..|events| - 1], key)
  }

  function Remaining(cap: nat, used: nat): nat { if cap > used then cap - used else 0 }

  predicate SameRequest(e: Entry, q: Request) {
    e.wallet == q.wallet && e.destination == q.destination && e.usdc == q.usdc && e.sats == q.sats
  }

  function NewEntry(q: Request, now: int): Entry {
    Entry(q.key, q.wallet, q.destination, q.usdc, q.sats, Admitted, now)
  }

  /** Adding the request to a scope's current volume goes over its cap. */
  predicate Exceeds(p: Limits, events: seq<Entry>, s: Scope, amount: nat, now: int) {
    Volume(events, s, now - Window(p, s)) + amount > Cap(p, s)
  }

  function CheckAndAdmit(p: Limits, events: seq<Entry>, q: Request, now: int): Result<Ticket, AdmissionError> {
    var w, d := ByWallet(q.wallet), ByDestination(q.destination);
    var before := Volume(events, w, now - p.window);
    if CoolingDown(events, q.wallet, now - p.cooldown) then Err(CooldownActive)
    else if Exceeds(p, events, w, q.usdc, now) then Err(WalletVolume(before))
    else if Exceeds(p, events, d, q.usdc, now) then Err(DestinationVolume(Volume(events, d, now - p.window)))
    else if Exceeds(p, events, InFlight, q.usdc, now) then
      Err(ConcurrentExposure(Volume(events, InFlight, now - IN_FLIGHT_MS)))
    else if Exceeds(p, events, Everything, q.usdc, now) then
      Err(GlobalCapacity(Volume(events, Everything, now - p.window)))
    else Ok(Ticket(NewEntry(q, now), before, before + q.usdc, Remaining(p.walletCap, before + q.usdc)))
  }

  /** The reply to one admission request, in the order the checks are made. */
  function Evaluate(p: Limits, events: seq<Entry>, q: Request, now: int): Result<Ticket, AdmissionError> {
    if q.usdc > p.singleCap then Err(SingleSwapTooLarge)
    else
      match FindKey(events, q.key)
      case Some(i) =>
        var before := Volume(events, ByWallet(q.wallet), now - p.window);
        if SameRequest(events[i], q) then Ok(Ticket(events[i], before, before, Remaining(p.walletCap, before)))
        else Err(IdempotencyConflict)
      case None => CheckAndAdmit(p, events, q, now)
  }

  /** The table after the request: one more row, or the same rows. */
  function Record(p: Limits, events: seq<Entry>, q: Request, now: int): seq<Entry> {
    if Evaluate(p, events, q, now).Ok? && FindKey(events, q.key).None? then events + [NewEntry(q, now)] else events
  }

  /** A closing status never reopens a row and never marks it failed. */
  predicate Closing(s: Status) { s == Completed || s == Refunded || s == Cancelled }

  function SetStatus(events: seq<Entry>, key: nat, s: Status): (r: seq<Entry>)
    ensures |r| == |events|
    ensures forall i :: 0 <= i < |events| ==>
      r[i] == if events[i].key == key then events[i].(status := s) else events[i]
  {
    seq(|events|, i requires 0 <= i < |events| =>
      if events[i].key == key then events[i].(status := s) else events[i])
  }

  // ---------------------------------------------------------------------- runs

  datatype Op = Admit(request: Request, now: int) | Close(key: nat, status: Status)

  function Apply(p: Limits, events: seq<Entry>, op: Op): seq<Entry> {
    match op
    case Admit(q, now) => Record(p, events, q, now)
    case Close(key, s) => if Closing(s) then SetStatus(events, key, s) else events
  }

  function Run(p: Limits, events: seq<Entry>, ops: seq<Op>): seq<Entry>
    decreases |ops|
  {
    if ops == [] then events else Run(p, Apply(p, events, ops[0]), ops[1..])
  }

  // ----------------------------------------------------------------- invariant

  /** When row `i` was admitted, what counted before it in each of its scopes left room for it. */
  predicate FittedIn(p: Limits, events: seq<Entry>, s: Scope, i: nat)
    requires i < |events|
  {
    Counts(s, events[i]) ==>
      Volume(events[..i], s, events[i].created - Window(p, s)) + events[i].usdc <= Cap(p, s)
  }

  ghost predicate Inv(p: Limits, events: seq<Entry>) {
    && (forall i, s :: 0 <= i < |events| ==> FittedIn(p, events, s, i))
    && (forall i, j :: 0 <= i < j < |events| && events[i].wallet == events[j].wallet ==>
          events[j].created - events[i].created >= p.cooldown)
    && (forall i, j :: 0 <= i < j < |events| ==> events[i].key != events[j].key)
    && (forall i :: 0 <= i < |events| ==> events[i].status != FailedSwap && events[i].usdc <= p.singleCap)
  }

  lemma AdmitKeepsInv(p: Limits, events: seq<Entry>, q: Request, now: int)
    requires Inv(p, events)
    ensures Inv(p, Record(p, events, q, now))
  {
    var events' := Record(p, events, q, now);
    if events' != events {
      forall i, s | 0 <= i < |events'|
        ensures FittedIn(p, events', s, i)
      {
        assert events'[..i] == events[..i];
        if i < |events| { assert FittedIn(p, events, s, i); } else { assert events[..i] == events; }
      }
    }
  }

  lemma {:induction false} ClosingShrinksVolume(events: seq<Entry>, key: nat, st: Status, s: Scope, cutoff: int)
    requires Closing(st) && forall i :: 0 <= i < |events| ==> events[i].status != FailedSwap
    ensures Volume(SetStatus(events, key, st), s, cutoff) <= Volume(events, s, cutoff)
    decreases |events|
  {
    if events != [] {
      var n := |events| - 1;
      assert SetStatus(events, key, st)[..n] == SetStatus(events[..n], key, st);
      ClosingShrinksVolume(events[..n], key, st, s, cutoff);
    }
  }

  lemma CloseKeepsInv(p: Limits, events: seq<Entry>, key: nat, st: Status)
    requires Inv(p, events) && Closing(st)
    ensures Inv(p, SetStatus(events, key, st))
  {
    var events' := SetStatus(events, key, st);
    forall i, s | 0 <= i < |events'|
      ensures FittedIn(p, events', s, i)
    {
      assert FittedIn(p, events, s, i);
      assert events'[..i] == SetStatus(events[..i], key, st);
      ClosingShrinksVolume(events[..i], key, st, s, events[i].created - Window(p, s));
    }
  }

  lemma {:induction false} RunKeepsInv(p: Limits, events: seq<Entry>, ops: seq<Op>)
    requires Inv(p, events)
    ensures Inv(p, Run(p, events, ops))
    decreases |ops|
  {
    if ops != [] {
      match ops[0] {
        case Admit(q, now) => AdmitKeepsInv(p, events, q, now);
        case Close(key, s) => if Closing(s) { CloseKeepsInv(p, events, key, s); }
      }
      RunKeepsInv(p, Apply(p, events, ops[0]), ops[1..]);
    }
  }

  // ------------------------------------------------------------ sliding windows

  /** The volume of a scope in the half-open window (low, high]. */
  function VolumeWithin(events: seq<Entry>, s: Scope, low: int, high: int): nat {
    if events == [] then 0
    else
      var last := events[|events| - 1];
      VolumeWithin(events[..|events| - 1], s, low, high)
        + (if Counts(s, last) && low < last.created <= high then last.usdc else 0)
  }

  lemma {:induction false} WithinIsLess(events: seq<Entry>, s: Scope, low: int, high: int, cutoff: int)
    requires cutoff <= low
    ensures VolumeWithin(events, s, low, high) <= Volume(events, s, cutoff)
    decreases |events|
  {
    if events != [] { WithinIsLess(events[..|events| - 1], s, low, high, cutoff); }
  }

  lemma FittedInPrefix(p: Limits, events: seq<Entry>, n: nat)
    requires n <= |events| && forall i, s :: 0 <= i < |events| ==> FittedIn(p, events, s, i)
    ensures forall i, s :: 0 <= i < n ==> FittedIn(p, events[..n], s, i)
  {
    forall i, s | 0 <= i < n
      ensures FittedIn(p, events[..n], s, i)
    {
      assert FittedIn(p, events, s, i);
      assert events[..n][..i] == events[..i];
    }
  }

  /**
   The last admitted row of a window carries the bound for the whole window:
   its own check looked back at least as far as the window starts.
   */
  lemma {:induction false} WindowFits(p: Limits, events: seq<Entry>, s: Scope, time: int)
    requires forall i, s :: 0 <= i < |events| ==> FittedIn(p, events, s, i)
    ensures VolumeWithin(events, s, time - Window(p, s), time) <= Cap(p, s)
    decreases |events|
  {
    if events != [] {
      var n := |events| - 1;
      var last := events[n];
      FittedInPrefix(p, events, n);
      if Counts(s, last) && time - Window(p, s) < last.created <= time {
        assert FittedIn(p, events, s, n);
        WithinIsLess(events[..n], s, time - Window(p, s), time, last.created - Window(p, s));
      } else {
        WindowFits(p, events[..n], s, time);
      }
    }
  }

  /**
   At every time, not only when a request is made, and for any order of the
   clock: each wallet, each destination and the whole system stay within their
   caps over the rolling window, and admitted volume within the in-flight cap.
   */
  lemma WindowsHold(p: Limits, ops: seq<Op>, s: Scope, time: int)
    ensures VolumeWithin(Run(p, [], ops), s, time - Window(p, s), time) <= Cap(p, s)
  {
    RunKeepsInv(p, [], ops);
    WindowFits(p, Run(p, [], ops), s, time);
  }

  /** Two admissions of one wallet are at least the cooldown apart, and the later one has the later time. */
  lemma CooldownHolds(p: Limits, ops: seq<Op>, i: nat, j: nat)
    requires i < j < |Run(p, [], ops)| && Run(p, [], ops)[i].wallet == Run(p, [], ops)[j].wallet
    ensures Run(p, [], ops)[j].created >= Run(p, [], ops)[i].created + p.cooldown
  {
    RunKeepsInv(p, [], ops);
  }

  /** A key is charged once, and no single admission exceeds the single-swap limit. */
  lemma ChargedOnce(p: Limits, ops: seq<Op>)
    ensures var events := Run(p, [], ops);
      && (forall i, j :: 0 <= i < j < |events| ==> events[i].key != events[j].key)
      && (forall i :: 0 <= i < |events| ==> events[i].usdc <= p.singleCap)
  {
    RunKeepsInv(p, [], ops);
  }

  /** Every limit leaves room for the request. */
  predicate Fits(p: Limits, events: seq<Entry>, q: Request, now: int) {
    && q.usdc <= p.singleCap
    && (forall i :: 0 <= i < |events| && events[i].wallet == q.wallet ==> events[i].created <= now - p.cooldown)
    && Volume(events, ByWallet(q.wallet), now - p.window) + q.usdc <= p.walletCap
    && Volume(events, ByDestination(q.destination), now - p.window) + q.usdc <= p.destinationCap
    && Volume(events, InFlight, now - IN_FLIGHT_MS) + q.usdc <= p.inFlightCap
    && Volume(events, Everything, now - p.window) + q.usdc <= p.globalCap
  }

  lemma AdmittedExactly(p: Limits, events: seq<Entry>, q: Request, now: int)
    requires q.usdc <= p.singleCap
    ensures CheckAndAdmit(p, events, q, now).Ok? <==> Fits(p, events, q, now)
  {
    hide Volume;
  }

  /** The amount is under every cap, so it is admitted once nothing else counts any more. */
  predicate Affordable(p: Limits, usdc: nat) {
    usdc <= p.singleCap && usdc <= p.walletCap && usdc <= p.destinationCap && usdc <= p.inFlightCap
    && usdc <= p.globalCap
  }

  lemma {:induction false} NothingAfter(events: seq<Entry>, s: Scope, cutoff: int)
    requires forall i :: 0 <= i < |events| ==> events[i].created <= cutoff
    ensures Volume(events, s, cutoff) == 0
    decreases |events|
  {
    if events != [] { NothingAfter(events[..|events| - 1], s, cutoff); }
  }

  lemma {:induction false} LatestCreated(events: seq<Entry>) returns (last: int)
    ensures forall i :: 0 <= i < |events| ==> events[i].created <= last
    decreases |events|
  {
    last := 0;
    if events != [] {
      var n := |events| - 1;
      last := LatestCreated(events[..n]);
      if events[n].created > last { last := events[n].created; }
    }
  }

  /** An affordable request is admitted if it waits until all windows are empty. */
  lemma LateRequestFits(p: Limits, events: seq<Entry>, q: Request) returns (now: int)
    requires Affordable(p, q.usdc)
    ensures Fits(p, events, q, now)
  {
    var last := LatestCreated(events);
    now := last + p.cooldown + p.window + IN_FLIGHT_MS;
    NothingAfter(events, ByWallet(q.wallet), now - p.window);
    NothingAfter(events, ByDestination(q.destination), now - p.window);
    NothingAfter(events, InFlight, now - IN_FLIGHT_MS);
    NothingAfter(events, Everything, now - p.window);
  }

  /** A request is charged exactly when it is new and every limit leaves room for it; otherwise nothing changes. */
  lemma ChargedExactly(p: Limits, events: seq<Entry>, q: Request, now: int)
    ensures Record(p, events, q, now)
         == if FindKey(events, q.key).None? && Fits(p, events, q, now) then events + [NewEntry(q, now)] else events
  {
    if q.usdc <= p.singleCap { AdmittedExactly(p, events, q, now); }
    hide Volume, CheckAndAdmit;
  }

  /** The ticket's arithmetic is conserved: what was used, what this request adds, and what is left make up the cap. */
  lemma TicketAddsUp(p: Limits, events: seq<Entry>, q: Request, now: int)
    requires FindKey(events, q.key).None? && Evaluate(p, events, q, now).Ok?
    ensures var t := Evaluate(p, events, q, now).value;
      && t.before == Volume(events, ByWallet(q.wallet), now - p.window)
      && t.before + q.usdc == t.after && t.after + t.remaining == p.walletCap
      && t.entry == Entry(q.key, q.wallet, q.destination, q.usdc, q.sats, Admitted, now)
  {
  }

  /** A repeated key is answered from its row at no charge if the terms agree, and refused if they do not. */
  lemma RepeatsExactly(p: Limits, ops: seq<Op>, q: Request, now: int, i: nat)
    requires i < |Run(p, [], ops)| && Run(p, [], ops)[i].key == q.key && q.usdc <= p.singleCap
    ensures var events := Run(p, [], ops); var e := events[i]; var r := Evaluate(p, events, q, now);
      var used := Volume(events, ByWallet(q.wallet), now - p.window);
      if (e.wallet, e.destination, e.usdc, e.sats) == (q.wallet, q.destination, q.usdc, q.sats)
      then r.Ok? && r.value.entry == e && r.value.before == r.value.after == used
           && r.value.remaining == (if used < p.walletCap then p.walletCap - used else 0)
      else r == Err(IdempotencyConflict)
  {
    RunKeepsInv(p, [], ops);
    assert FindKey(Run(p, [], ops), q.key) == Some(i);
  }

  /** What each refusal of a new key says: its own limit fails, and those checked before it do not. */
  lemma RefusedExactly(p: Limits, events: seq<Entry>, q: Request, now: int)
    requires FindKey(events, q.key).None? && Evaluate(p, events, q, now).Err?
    ensures var cooling := exists i :: 0 <= i < |events| && events[i].wallet == q.wallet
                                        && events[i].created > now - p.cooldown;
      var wallet := Volume(events, ByWallet(q.wallet), now - p.window);
      var destination := Volume(events, ByDestination(q.destination), now - p.window);
      var open := Volume(events, InFlight, now - 7_200_000);
      var error := Evaluate(p, events, q, now).error;
      && (error == SingleSwapTooLarge <==> q.usdc > p.singleCap)
      && error != IdempotencyConflict
      && (error == CooldownActive <==> q.usdc <= p.singleCap && cooling)
      && (error.WalletVolume? ==> !cooling && error.current == wallet && wallet + q.usdc > p.walletCap)
      && (error.DestinationVolume? ==>
            && !cooling && wallet + q.usdc <= p.walletCap
            && error.current == destination && destination + q.usdc > p.destinationCap)
      && (error.ConcurrentExposure? ==>
            && !cooling && wallet + q.usdc <= p.walletCap && destination + q.usdc <= p.destinationCap
            && error.current == open && open + q.usdc > p.inFlightCap)
      && (error.GlobalCapacity? ==>
            && !cooling && wallet + q.usdc <= p.walletCap && destination + q.usdc <= p.destinationCap
            && open + q.usdc <= p.inFlightCap
            && error.current == Volume(events, Everything, now - p.window) && error.current + q.usdc > p.globalCap)
  {
    hide Volume;
  }

  /** An admission charges its wallet, its destination, the exposure and the total, and nobody else. */
  lemma AdmissionCharges(events: seq<Entry>, q: Request, now: int, s: Scope, cutoff: int)
    requires cutoff < now
    ensures var mine := match s
        case ByWallet(w) => w == q.wallet
        case ByDestination(d) => d == q.destination
        case _ => true;
      Volume(events + [NewEntry(q, now)], s, cutoff) == Volume(events, s, cutoff) + (if mine then q.usdc else 0)
  {
    assert (events + [NewEntry(q, now)])[..|events|] == events;
  }

  /**
   A swap that ends gives its exposure back and stays charged otherwise:
   completing, refunding or cancelling never makes room under the rolling caps.
   */
  lemma ClosingFreesExposureOnly(p: Limits, ops: seq<Op>, i: nat, st: Status, s: Scope, cutoff: int)
    requires i < |Run(p, [], ops)| && Closing(st)
    ensures var events := Run(p, [], ops); var e := events[i];
      Volume(SetStatus(events, e.key, st), s, cutoff)
         == Volume(events, s, cutoff)
            - (if s.InFlight? && e.status == Admitted && e.created > cutoff then e.usdc else 0)
  {
    RunKeepsInv(p, [], ops);
    hide Inv, Run;
    ClosingFrees(Run(p, [], ops), i, st, s, cutoff);
  }

  /** What row `e` adds to the volume of a scope. */
  function Share(e: Entry, s: Scope, cutoff: int): nat { if Counts(s, e) && e.created > cutoff then e.usdc else 0 }

  lemma VolumeOfLast(events: seq<Entry>, s: Scope, cutoff: int)
    requires events != []
    ensures var n := |events| - 1;
      Volume(events, s, cutoff) == Volume(events[..n], s, cutoff) + Share(events[n], s, cutoff)
  {
  }

  lemma ShareFreed(e: Entry, st: Status, s: Scope, cutoff: int)
    requires Closing(st) && e.status != FailedSwap
    ensures Share(e.(status := st), s, cutoff)
         == Share(e, s, cutoff) - (if s.InFlight? && e.status == Admitted && e.created > cutoff then e.usdc else 0)
  {
  }

  lemma {:induction false} ClosingFrees(events: seq<Entry>, i: nat, st: Status, s: Scope, cutoff: int)
    requires Closing(st) && i < |events|
    requires forall j :: 0 <= j < |events| ==> events[j].status != FailedSwap
    requires forall j, k :: 0 <= j < k < |events| ==> events[j].key != events[k].key
    ensures var e := events[i];
      Volume(SetStatus(events, e.key, st), s, cutoff)
         == Volume(events, s, cutoff)
            - (if s.InFlight? && e.status == Admitted && e.created > cutoff then e.usdc else 0)
    decreases |events|
  {
    hide Volume, Counts, Share;
    var n, key := |events| - 1, events[i].key;
    var closed := SetStatus(events, key, st);
    VolumeOfLast(events, s, cutoff);
    VolumeOfLast(closed, s, cutoff);
    assert closed[..n] == SetStatus(events[..n], key, st);
    if i < n {
      ClosingFrees(events[..n], i, st, s, cutoff);
      assert closed[n] == events[n];
    } else {
      assert SetStatus(events[..n], key, st) == events[..n];
      ShareFreed(events[n], st, s, cutoff);
    }
  }

  /** After a charge, repeating the same request is answered from the stored row and changes nothing. */
  lemma ReplayIsFree(p: Limits, ops: seq<Op>, q: Request, now: int, later: int)
    requires Evaluate(p, Run(p, [], ops), q, now).Ok?
    ensures var events := Record(p, Run(p, [], ops), q, now);
      && Evaluate(p, events, q, later).Ok? && Evaluate(p, events, q, later).value.entry.key == q.key
      && Record(p, events, q, later) == events
  {
  }

  // ------------------------------------------------------------------ the table

  /** The event table, read by summing loops and written by one insert or one status update. */
  class AdmissionTable {
    const limits: Limits
    var events: seq<Entry>

    ghost predicate Valid()
      reads this
    {
      Inv(limits, events)
    }

    constructor (limits: Limits)
      ensures Valid() && events == [] && this.limits == limits
    {
      this.limits := limits;
      events := [];
    }

    method RollingVolume(s: Scope, cutoff: int) returns (sum: nat)
      ensures sum == Volume(events, s, cutoff)
    {
      sum := 0;
      for i := 0 to |events|
        invariant sum == Volume(events[..i], s, cutoff)
      {
        assert events[..i + 1][..i] == events[..i];
        if Counts(s, events[i]) && events[i].created > cutoff { sum := sum + events[i].usdc; }
      }
      assert events[..|events|] == events;
    }

    /** The wallet's latest request after the cutoff, if any. */
    method LatestRequest(wallet: nat, cutoff: int) returns (latest: Option<int>)
      ensures latest.Some? <==> CoolingDown(events, wallet, cutoff)
      ensures latest.Some? ==> latest.value > cutoff
      ensures forall i :: 0 <= i < |events| && events[i].wallet == wallet && events[i].created > cutoff ==>
        latest.Some? && events[i].created <= latest.value
    {
      latest := None;
      for i := 0 to |events|
        invariant latest.Some? <==>
          exists k :: 0 <= k < i && events[k].wallet == wallet && events[k].created > cutoff
        invariant latest.Some? ==> latest.value > cutoff
        invariant forall k :: 0 <= k < i && events[k].wallet == wallet && events[k].created > cutoff ==>
          latest.Some? && events[k].created <= latest.value
      {
        var e := events[i];
        if e.wallet == wallet && e.created > cutoff && (latest.None? || e.created > latest.value) {
          latest := Some(e.created);
        }
      }
    }

    /** The wallet's latest request is closer than the cooldown. */
    method InCooldown(wallet: nat, now: int) returns (waiting: bool)
      ensures waiting == CoolingDown(events, wallet, now - limits.cooldown)
    {
      var recent := LatestRequest(wallet, now - limits.cooldown);
      if recent.None? { return false; }
      var left := limits.cooldown - (now - recent.value);
      waiting := left > 0;
    }

    /** The sum of a scope and whether this amount no longer fits into it. */
    method SumUp(s: Scope, amount: nat, now: int) returns (sum: nat, over: bool)
      ensures sum == Volume(events, s, now - Window(limits, s))
      ensures over == Exceeds(limits, events, s, amount, now)
    {
      sum := RollingVolume(s, now - Window(limits, s));
      over := sum + amount > Cap(limits, s);
    }

    /** The limits for a new key, in the source's order. */
    method CheckLimits(q: Request, now: int) returns (reply: Result<Ticket, AdmissionError>)
      ensures reply == CheckAndAdmit(limits, events, q, now)
    {
      hide Volume, Exceeds, CoolingDown;
      var waiting := InCooldown(q.wallet, now);
      if waiting { return Err(CooldownActive); }
      var before, over := SumUp(ByWallet(q.wallet), q.usdc, now);
      if over { return Err(WalletVolume(before)); }
      var sum;
      sum, over := SumUp(ByDestination(q.destination), q.usdc, now);
      if over { return Err(DestinationVolume(sum)); }
      sum, over := SumUp(InFlight, q.usdc, now);
      if over { return Err(ConcurrentExposure(sum)); }
      sum, over := SumUp(Everything, q.usdc, now);
      if over { return Err(GlobalCapacity(sum)); }
      reply := Ok(Ticket(NewEntry(q, now), before, before + q.usdc, Remaining(limits.walletCap, before + q.usdc)));
    }

    method EvaluateAndRecordAdmission(q: Request, now: int) returns (reply: Result<Ticket, AdmissionError>)
      requires Valid()
      modifies this`events
      ensures reply == Evaluate(limits, old(events), q, now)
      ensures events == Record(limits, old(events), q, now) && Valid()
    {
      AdmitKeepsInv(limits, events, q, now);
      hide Inv, Volume, CheckAndAdmit, NewEntry;
      if q.usdc > limits.singleCap { return Err(SingleSwapTooLarge); }
      var existing := FindKey(events, q.key);
      if existing.Some? {
        if !SameRequest(events[existing.value], q) { return Err(IdempotencyConflict); }
        var used := RollingVolume(ByWallet(q.wallet), now - limits.window);
        return Ok(Ticket(events[existing.value], used, used, Remaining(limits.walletCap, used)));
      }
      reply := CheckLimits(q, now);
      if reply.Ok? { events := events + [NewEntry(q, now)]; }
    }

    method UpdateSwapStatus(key: nat, status: Status)
      requires Valid() && Closing(status)
      modifies this`events
      ensures events == SetStatus(old(events), key, status) && Valid()
    {
      CloseKeepsInv(limits, events, key, status);
      var i := FindKey(events, key);
      if i.Some? { events := events[i.value := events[i.value].(status := status)]; }
      assert events == SetStatus(old(events), key, status);
    }
  }
}
