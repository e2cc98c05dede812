/**
 What an idempotency key protects: it is bound to one bargain from its admission
 on, and it is spent, against every further broadcast, in exactly the states
 named here. Three runs show a key broadcast twice.
 */
module RelayerKeys {
  import opened Wrappers
  import AntiAbuse
  import opened Relayer

  // ------------------------------------------------------------------- bargains

  /** The stored admission is for this swapper and these terms. */
  predicate AdmittedFor(e: AntiAbuse.Entry, m: Message) { e.key == m.key && AntiAbuse.SameRequest(e, RequestOf(m)) }

  predicate Bound(t: Tables, m: Message) { exists i :: 0 <= i < |t.admissions| && AdmittedFor(t.admissions[i], m) }

  /** What an admission is worth is under every cap, and something. */
  predicate Paid(p: Limits, e: AntiAbuse.Entry) { 1 <= e.usdc && AntiAbuse.Affordable(p, e.usdc) }

  /** Whoever is under way or was accepted has the key's admission behind it. */
  ghost predicate Bargains(p: Limits, s: State) {
    && AntiAbuse.Inv(p, s.tables.admissions)
    && (forall i :: 0 <= i < |s.tables.admissions| ==> Paid(p, s.tables.admissions[i]))
    && (forall id :: id in s.frames ==> Bound(s.tables, s.frames[id].message))
    && (forall i :: 0 <= i < |s.tables.consumed| ==> Bound(s.tables, s.tables.consumed[i]))
  }

  /** An entry keeps everything but its status. */
  predicate SameEntry(e: AntiAbuse.Entry, e': AntiAbuse.Entry) { e' == e.(status := e'.status) }

  /** Admissions are never withdrawn or rewritten. */
  predicate AdmissionsKept(a: seq<AntiAbuse.Entry>, b: seq<AntiAbuse.Entry>) {
    |a| <= |b| && forall i :: 0 <= i < |a| ==> SameEntry(a[i], b[i])
  }

  lemma BoundStays(t: Tables, t': Tables, m: Message)
    requires Bound(t, m) && AdmissionsKept(t.admissions, t'.admissions)
    ensures Bound(t', m)
  {
    var i :| 0 <= i < |t.admissions| && AdmittedFor(t.admissions[i], m);
    assert SameEntry(t.admissions[i], t'.admissions[i]);
    assert AdmittedFor(t'.admissions[i], m);
  }

  lemma PaidStays(p: Limits, a: seq<AntiAbuse.Entry>, b: seq<AntiAbuse.Entry>)
    requires AdmissionsKept(a, b) && |a| == |b| && forall i :: 0 <= i < |a| ==> Paid(p, a[i])
    ensures forall i :: 0 <= i < |b| ==> Paid(p, b[i])
  {
    forall i | 0 <= i < |b|
      ensures Paid(p, b[i])
    {
      assert SameEntry(a[i], b[i]) && Paid(p, a[i]);
    }
  }

  /** An admission binds the key: to the stored entry, or to a new one that is under every cap. */
  lemma AdmitBinds(p: Limits, t: Tables, m: Message, now: int)
    requires AntiAbuse.Inv(p, t.admissions) && Welcome(p, t, m, now) && m.terms.usdc > 0
    requires forall i :: 0 <= i < |t.admissions| ==> Paid(p, t.admissions[i])
    ensures var t' := Admit(p, t, m, now);
      && AntiAbuse.Inv(p, t'.admissions) && AdmissionsKept(t.admissions, t'.admissions) && Bound(t', m)
      && forall i :: 0 <= i < |t'.admissions| ==> Paid(p, t'.admissions[i])
  {
    hide AntiAbuse.Inv, AntiAbuse.CheckAndAdmit, AntiAbuse.Volume;
    var q := RequestOf(m);
    AntiAbuse.AdmitKeepsInv(p, t.admissions, q, now);
    var known := AntiAbuse.FindKey(t.admissions, m.key);
    if known.Some? {
      assert AdmittedFor(t.admissions[known.value], m);
    } else {
      AntiAbuse.AdmittedExactly(p, t.admissions, q, now);
      var t' := Admit(p, t, m, now);
      assert t'.admissions == t.admissions + [AntiAbuse.NewEntry(q, now)];
      assert AdmittedFor(t'.admissions[|t.admissions|], m);
    }
  }

  lemma CloseBinds(p: Limits, t: Tables, key: nat, st: AntiAbuse.Status)
    requires AntiAbuse.Inv(p, t.admissions) && AntiAbuse.Closing(st)
    requires forall i :: 0 <= i < |t.admissions| ==> Paid(p, t.admissions[i])
    ensures var t' := SetAdmission(t, key, st);
      && AntiAbuse.Inv(p, t'.admissions) && AdmissionsKept(t.admissions, t'.admissions)
      && forall i :: 0 <= i < |t'.admissions| ==> Paid(p, t'.admissions[i])
  {
    hide AntiAbuse.Inv;
    AntiAbuse.CloseKeepsInv(p, t.admissions, key, st);
    PaidStays(p, t.admissions, SetAdmission(t, key, st).admissions);
  }

  /** What a section does to admissions and authorizations, and whom it leaves under way. */
  ghost predicate Fair(p: Limits, t: Tables, x: Section) {
    && AntiAbuse.Inv(p, x.tables.admissions)
    && AdmissionsKept(t.admissions, x.tables.admissions)
    && (forall i :: 0 <= i < |x.tables.admissions| ==> Paid(p, x.tables.admissions[i]))
    && (x.next.Some? ==> Bound(x.tables, x.next.value.message))
    && (x.tables.consumed == t.consumed
        || (x.next.Some? && x.tables.consumed == t.consumed + [x.next.value.message]))
  }

  predicate ClosedOnly(t: Tables, f: Frame, x: Section) {
    && (x.tables.admissions == t.admissions
        || x.tables.admissions == SetAdmission(t, f.message.key, AntiAbuse.Cancelled).admissions
        || x.tables.admissions == SetAdmission(t, f.message.key, AntiAbuse.Completed).admissions)
    && (x.next.Some? ==> x.next.value.message == f.message)
    && (x.tables.consumed == t.consumed || (x.next.Some? && x.tables.consumed == t.consumed + [f.message]))
  }

  /** On its way a submission does no more to its admission than close it. */
  lemma AdvanceClosesOnly(t: Tables, f: Frame, a: Answers)
    ensures ClosedOnly(t, f, Advance(t, f, a))
  {
    hide AntiAbuse.SetStatus;
  }

  lemma AdvanceFair(p: Limits, t: Tables, f: Frame, a: Answers)
    requires AntiAbuse.Inv(p, t.admissions) && Bound(t, f.message)
    requires forall i :: 0 <= i < |t.admissions| ==> Paid(p, t.admissions[i])
    ensures Fair(p, t, Advance(t, f, a))
  {
    hide AntiAbuse.Inv, AntiAbuse.SetStatus, Paid, AdmittedFor, Advance, Bound;
    AdvanceClosesOnly(t, f, a);
    CloseBinds(p, t, f.message.key, AntiAbuse.Cancelled);
    CloseBinds(p, t, f.message.key, AntiAbuse.Completed);
    BoundStays(t, Advance(t, f, a).tables, f.message);
  }

  lemma OpenFair(p: Limits, t: Tables, m: Message, a: Answers)
    requires AntiAbuse.Inv(p, t.admissions)
    requires forall i :: 0 <= i < |t.admissions| ==> Paid(p, t.admissions[i])
    ensures Fair(p, t, Open(p, t, m, a))
  {
    hide AntiAbuse.Inv, Paid, AdmittedFor, Welcome, Admit;
    if Quoted(m, a) && Welcome(p, t, m, a.now) { AdmitBinds(p, t, m, a.now); AdmitAddsOnly(p, t, m, a.now); }
  }

  lemma AdmitAddsOnly(p: Limits, t: Tables, m: Message, now: int)
    ensures Admit(p, t, m, now) == t.(admissions := Admit(p, t, m, now).admissions)
  {
  }

  lemma FairKeepsBargains(p: Limits, s: State, id: nat, x: Section)
    requires Bargains(p, s) && Fair(p, s.tables, x)
    ensures Bargains(p, Put(s, id, x))
  {
    hide AntiAbuse.Inv, Bound, AdmissionsKept;
    var s' := Put(s, id, x);
    forall j | j in s'.frames
      ensures Bound(s'.tables, s'.frames[j].message)
    {
      if j != id || x.next.None? { BoundStays(s.tables, s'.tables, s.frames[j].message); }
    }
    forall i | 0 <= i < |s'.tables.consumed|
      ensures Bound(s'.tables, s'.tables.consumed[i])
    {
      if i < |s.tables.consumed| { BoundStays(s.tables, s'.tables, s.tables.consumed[i]); }
    }
  }

  lemma StepKeepsBargains(p: Limits, s: State, e: Event)
    requires Bargains(p, s)
    ensures Bargains(p, Step(p, s, e)) && AdmissionsKept(s.tables.admissions, Step(p, s, e).tables.admissions)
  {
    hide AntiAbuse.Inv, Bound, Open, Advance;
    match e {
      case Submit(id, m, a) =>
        if id !in s.frames {
          OpenFair(p, s.tables, m, a);
          FairKeepsBargains(p, s, id, Open(p, s.tables, m, a));
        }
      case Resume(id, a) =>
        if id in s.frames {
          AdvanceFair(p, s.tables, s.frames[id], a);
          FairKeepsBargains(p, s, id, Advance(s.tables, s.frames[id], a));
        }
      case Crash(id) =>
    }
  }

  lemma KeptTwice(a: seq<AntiAbuse.Entry>, b: seq<AntiAbuse.Entry>, c: seq<AntiAbuse.Entry>)
    requires AdmissionsKept(a, b) && AdmissionsKept(b, c)
    ensures AdmissionsKept(a, c)
  {
    forall i | 0 <= i < |a|
      ensures SameEntry(a[i], c[i])
    {
      assert SameEntry(a[i], b[i]) && SameEntry(b[i], c[i]);
    }
  }

  lemma {:induction false} RunKeepsBargains(p: Limits, s: State, events: seq<Event>)
    requires Bargains(p, s)
    ensures Bargains(p, Run(p, s, events))
    ensures AdmissionsKept(s.tables.admissions, Run(p, s, events).tables.admissions)
    decreases |events|
  {
    if events != [] {
      hide Bargains, Step, AdmissionsKept;
      var s1 := Step(p, s, events[0]);
      StepKeepsBargains(p, s, events[0]);
      RunKeepsBargains(p, s1, events[1..]);
      KeptTwice(s.tables.admissions, s1.tables.admissions, Run(p, s, events).tables.admissions);
    }
  }

  /** The two halves of the invariant together. */
  ghost predicate Sound(p: Limits, s: State) { Inv(s) && Bargains(p, s) }

  lemma StartSound(p: Limits)
    ensures Sound(p, Start)
  {
  }

  lemma StepKeepsSound(p: Limits, s: State, e: Event)
    requires Sound(p, s)
    ensures Sound(p, Step(p, s, e))
  {
    hide Inv, Bargains, Step;
    StepKeepsInv(p, s, e);
    StepKeepsBargains(p, s, e);
  }

  lemma RunIsSound(p: Limits, events: seq<Event>)
    ensures Sound(p, Run(p, Start, events))
  {
    StartSound(p);
    hide Inv, Bargains, Run;
    RunKeepsInv(p, Start, events);
    RunKeepsBargains(p, Start, events);
  }

  lemma BroadcastIsBound(p: Limits, s: State, i: nat)
    requires Sound(p, s) && i < |s.tables.broadcasts|
    ensures Bound(s.tables, s.tables.broadcasts[i])
  {
    hide AntiAbuse.Inv, Bound, TablesAgree, NoncesAreGapless;
    var b := s.tables.broadcasts[i];
    assert b in s.tables.consumed;
    var k :| 0 <= k < |s.tables.consumed| && s.tables.consumed[k] == b;
  }

  lemma BoundOnce(p: Limits, t: Tables, x: Message, y: Message)
    requires AntiAbuse.Inv(p, t.admissions) && Bound(t, x) && Bound(t, y) && x.key == y.key
    ensures x.swapper == y.swapper && x.terms == y.terms
  {
    var i :| 0 <= i < |t.admissions| && AdmittedFor(t.admissions[i], x);
    var j :| 0 <= j < |t.admissions| && AdmittedFor(t.admissions[j], y);
  }

  /**
   Over all interleavings and failures, whatever is broadcast under one key has
   one swapper, one destination and one pair of amounts: those the key was
   admitted for.
   */
  lemma KeyHasOneBargain(p: Limits, events: seq<Event>, i: nat, j: nat)
    requires i < |Run(p, Start, events).tables.broadcasts| && j < |Run(p, Start, events).tables.broadcasts|
    requires Run(p, Start, events).tables.broadcasts[i].key == Run(p, Start, events).tables.broadcasts[j].key
    ensures var t := Run(p, Start, events).tables;
      && t.broadcasts[i].swapper == t.broadcasts[j].swapper && t.broadcasts[i].terms == t.broadcasts[j].terms
      && Bound(t, t.broadcasts[i])
  {
    RunIsSound(p, events);
    hide Run, Inv, AntiAbuse.Inv, Bound;
    var s := Run(p, Start, events);
    BroadcastIsBound(p, s, i);
    BroadcastIsBound(p, s, j);
    BoundOnce(p, s.tables, s.tables.broadcasts[i], s.tables.broadcasts[j]);
  }

  // ------------------------------------------------------- who can still use a key

  predicate KeyAdmitted(t: Tables, key: nat) { exists i :: 0 <= i < |t.admissions| && t.admissions[i].key == key }

  /** The key is admitted for this bargain, or not at all and the amount is under every cap. */
  predicate MayUse(p: Limits, t: Tables, m: Message) {
    Bound(t, m) || (!KeyAdmitted(t, m.key) && 1 <= m.terms.usdc && AntiAbuse.Affordable(p, m.terms.usdc))
  }

  lemma ReturningIsWelcome(p: Limits, s: State, m: Message, now: int)
    requires Bargains(p, s) && Bound(s.tables, m)
    ensures m.terms.usdc > 0 && Welcome(p, s.tables, m, now)
  {
    hide AntiAbuse.CheckAndAdmit, AntiAbuse.Volume, AntiAbuse.FittedIn;
    var i :| 0 <= i < |s.tables.admissions| && AdmittedFor(s.tables.admissions[i], m);
    assert Paid(p, s.tables.admissions[i]);
    assert AntiAbuse.FindKey(s.tables.admissions, m.key) == Some(i);
  }

  /** A bargain that may use the key is admitted now, or once all windows are empty. */
  lemma WelcomeInTime(p: Limits, s: State, m: Message) returns (now: int)
    requires Bargains(p, s) && MayUse(p, s.tables, m)
    ensures m.terms.usdc > 0 && Welcome(p, s.tables, m, now)
  {
    if Bound(s.tables, m) {
      now := 0;
      ReturningIsWelcome(p, s, m, now);
    } else {
      now := AntiAbuse.LateRequestFits(p, s.tables.admissions, RequestOf(m));
      AntiAbuse.AdmittedExactly(p, s.tables.admissions, RequestOf(m), now);
      hide AntiAbuse.CheckAndAdmit, AntiAbuse.Fits, AntiAbuse.Inv;
      assert AntiAbuse.FindKey(s.tables.admissions, m.key).None?;
    }
  }

  function Fine(now: int): Answers { Answers(now, true, true, false, false, true, Succeeded, true) }

  lemma RunThree(p: Limits, s: State, a: Event, b: Event, c: Event)
    ensures Run(p, s, [a, b, c]) == Step(p, Step(p, Step(p, s, a), b), c)
  {
    hide Step;
    assert [a, b, c][1..] == [b, c] && [b, c][1..] == [c] && [c][1..] == [];
    var s1 := Step(p, s, a);
    var s2 := Step(p, s1, b);
    assert Run(p, s2, [c]) == Run(p, Step(p, s2, c), []);
    assert Run(p, s1, [b, c]) == Run(p, s2, [c]);
  }

  lemma {:induction false} RunAppend(p: Limits, s: State, xs: seq<Event>, ys: seq<Event>)
    ensures Run(p, s, xs + ys) == Run(p, Run(p, s, xs), ys)
    decreases |xs|
  {
    hide Step;
    if xs == [] {
      assert xs + ys == ys;
    } else {
      assert (xs + ys)[1..] == xs[1..] + ys;
      RunAppend(p, Step(p, s, xs[0]), xs[1..], ys);
    }
  }

  lemma SubmitOpens(p: Limits, s: State, id: nat, m: Message, now: int)
    requires id !in s.frames && m.key !in s.tables.rows && m.terms.usdc > 0 && Welcome(p, s.tables, m, now)
    ensures Step(p, s, Submit(id, m, Fine(now)))
         == State(Admit(p, s.tables, m, now), s.frames[id := Frame(AwaitingAuthorization, m)])
  {
    hide Welcome, Admit;
  }

  /** Submitted and authorized, so that only the call of the broadcaster is left. */
  lemma MessageIsAccepted(p: Limits, s: State, id: nat, m: Message, now: int)
    requires id !in s.frames && m.key !in s.tables.rows && Acceptable(s.tables, m)
    requires m.terms.usdc > 0 && Welcome(p, s.tables, m, now)
    ensures var s' := Step(p, Step(p, s, Submit(id, m, Fine(now))), Resume(id, Fine(now)));
      && s'.frames == s.frames[id := Frame(AwaitingBroadcast, m)]
      && s'.tables == Consume(Admit(p, s.tables, m, now), m).value
  {
    hide Welcome, Admit;
    AdmitAddsOnly(p, s.tables, m, now);
    var s1 := Step(p, s, Submit(id, m, Fine(now)));
    assert s1.frames == s.frames[id := Frame(AwaitingAuthorization, m)];
    var s2 := Step(p, s1, Resume(id, Fine(now)));
    assert s2.frames == s.frames[id := Frame(AwaitingBroadcast, m)];
  }

  /** The way of a message up to its broadcast. */
  function UpToBroadcast(id: nat, m: Message, now: int): seq<Event> {
    [Submit(id, m, Fine(now)), Resume(id, Fine(now)), Resume(id, Fine(now))]
  }

  lemma MessageIsBroadcast(p: Limits, s: State, id: nat, m: Message, now: int)
    requires id !in s.frames && m.key !in s.tables.rows && Acceptable(s.tables, m)
    requires m.terms.usdc > 0 && Welcome(p, s.tables, m, now)
    ensures Run(p, s, UpToBroadcast(id, m, now)).tables.broadcasts == s.tables.broadcasts + [m]
  {
    MessageIsAccepted(p, s, id, m, now);
    AdmitAddsOnly(p, s.tables, m, now);
    hide Welcome, Admit, Open;
    RunThree(p, s, Submit(id, m, Fine(now)), Resume(id, Fine(now)), Resume(id, Fine(now)));
  }

  lemma {:induction false} SomethingUnused(used: set<nat>) returns (n: nat)
    ensures n !in used && forall x :: x in used ==> x < n
    decreases |used|
  {
    if used == {} {
      n := 0;
    } else {
      var x :| x in used;
      var m := SomethingUnused(used - {x});
      n := if x < m then m else x + 1;
      assert forall y :: y in used ==> y == x || y in used - {x};
    }
  }

  /** The next authorization a swapper can sign for this key and these terms, over a new quote. */
  lemma NextMessage(t: Tables, key: nat, swapper: nat, terms: Terms, quotes: set<nat>, signatures: set<nat>)
    returns (m: Message)
    ensures m.key == key && m.swapper == swapper && m.terms == terms && Acceptable(t, m)
    ensures m.quote !in quotes && m.signature !in signatures
  {
    var quote := SomethingUnused(t.quotes.Keys + quotes);
    var signature := SomethingUnused(t.signatures + signatures);
    m := Message(key, swapper, ExpectedNonce(t, swapper), quote, signature, terms);
  }

  /** A run from `s` broadcasts just this message. */
  ghost predicate CanBroadcast(p: Limits, s: State, m: Message) {
    exists after: seq<Event> :: Run(p, s, after).tables.broadcasts == s.tables.broadcasts + [m]
  }

  lemma OpenKeyCanBeUsed(p: Limits, s: State, key: nat, swapper: nat, terms: Terms) returns (m: Message)
    requires Sound(p, s) && key !in s.tables.rows
    requires MayUse(p, s.tables, Message(key, swapper, 0, 0, 0, terms))
    ensures m.key == key && m.swapper == swapper && m.terms == terms && CanBroadcast(p, s, m)
  {
    hide Inv, Bargains, Run, Acceptable, Welcome;
    m := NextMessage(s.tables, key, swapper, terms, {}, {});
    MayUseIsOfTheBargain(p, s.tables, Message(key, swapper, 0, 0, 0, terms), m);
    hide MayUse;
    var now := WelcomeInTime(p, s, m);
    var id := SomethingUnused(s.frames.Keys);
    MessageIsBroadcast(p, s, id, m, now);
  }

  lemma MayUseIsOfTheBargain(p: Limits, t: Tables, x: Message, y: Message)
    requires x.key == y.key && x.swapper == y.swapper && x.terms == y.terms && MayUse(p, t, x)
    ensures MayUse(p, t, y)
  {
    if Bound(t, x) {
      var i :| 0 <= i < |t.admissions| && AdmittedFor(t.admissions[i], x);
      assert AdmittedFor(t.admissions[i], y);
    }
  }

  /** Something new is broadcast under this key for this bargain. */
  predicate NewlyBroadcast(s: State, s': State, key: nat, swapper: nat, terms: Terms) {
    exists i :: |s.tables.broadcasts| <= i < |s'.tables.broadcasts|
      && s'.tables.broadcasts[i].key == key && s'.tables.broadcasts[i].swapper == swapper
      && s'.tables.broadcasts[i].terms == terms
  }

  /** Whoever is bound after a run could have been bound before it. */
  lemma BoundLater(p: Limits, t: Tables, t': Tables, m: Message)
    requires AntiAbuse.Inv(p, t'.admissions) && AdmissionsKept(t.admissions, t'.admissions) && Bound(t', m)
    requires forall i :: 0 <= i < |t'.admissions| ==> Paid(p, t'.admissions[i])
    ensures MayUse(p, t, m)
  {
    hide AntiAbuse.Affordable;
    var i :| 0 <= i < |t'.admissions| && AdmittedFor(t'.admissions[i], m);
    assert Paid(p, t'.admissions[i]);
    if KeyAdmitted(t, m.key) {
      var j :| 0 <= j < |t.admissions| && t.admissions[j].key == m.key;
      assert SameEntry(t.admissions[j], t'.admissions[j]);
      assert i == j;
      assert AdmittedFor(t.admissions[j], m);
    }
  }

  /**
   While a key has no row, exactly these bargains can still be broadcast under
   it: the one it is admitted for; or, if it was never admitted, every one whose
   amount is under all caps.
   */
  lemma OpenKeyServesExactly(p: Limits, before: seq<Event>, key: nat, swapper: nat, terms: Terms)
    requires key !in Run(p, Start, before).tables.rows
    ensures var s := Run(p, Start, before);
      (exists after: seq<Event> :: NewlyBroadcast(s, Run(p, s, after), key, swapper, terms)) <==>
      MayUse(p, s.tables, Message(key, swapper, 0, 0, 0, terms))
  {
    RunIsSound(p, before);
    var s := Run(p, Start, before);
    hide Inv, Run, MayUse;
    var any := Message(key, swapper, 0, 0, 0, terms);
    if MayUse(p, s.tables, any) {
      var m := OpenKeyCanBeUsed(p, s, key, swapper, terms);
      var after: seq<Event> :| Run(p, s, after).tables.broadcasts == s.tables.broadcasts + [m];
      assert Run(p, s, after).tables.broadcasts[|s.tables.broadcasts|] == m;
      assert NewlyBroadcast(s, Run(p, s, after), key, swapper, terms);
    }
    forall after: seq<Event> | NewlyBroadcast(s, Run(p, s, after), key, swapper, terms)
      ensures MayUse(p, s.tables, any)
    {
      UseNeedsAdmission(p, before, after, any);
    }
  }

  lemma UseNeedsAdmission(p: Limits, before: seq<Event>, after: seq<Event>, any: Message)
    requires var s := Run(p, Start, before);
      NewlyBroadcast(s, Run(p, s, after), any.key, any.swapper, any.terms)
    ensures MayUse(p, Run(p, Start, before).tables, any)
  {
    RunIsSound(p, before);
    var s := Run(p, Start, before);
    hide Run, MayUse;
    RunKeepsBargains(p, s, after);
    RunKeepsInv(p, s, after);
    var s' := Run(p, s, after);
    var i :| |s.tables.broadcasts| <= i < |s'.tables.broadcasts| && s'.tables.broadcasts[i].key == any.key
              && s'.tables.broadcasts[i].swapper == any.swapper && s'.tables.broadcasts[i].terms == any.terms;
    hide Inv, AntiAbuse.Inv;
    BroadcastIsBound(p, s', i);
    BoundLater(p, s.tables, s'.tables, s'.tables.broadcasts[i]);
    MayUseIsOfTheBargain(p, s.tables, s'.tables.broadcasts[i], any);
  }

  // ---------------------------------------------------------- when a key is spent

  predicate NoNewBroadcast(s: State, s': State, key: nat) {
    s.tables.broadcasts <= s'.tables.broadcasts
    && forall i :: |s.tables.broadcasts| <= i < |s'.tables.broadcasts| ==> s'.tables.broadcasts[i].key != key
  }

  /** Its quote, its signature or its nonce has been used up: it will never be accepted. */
  predicate Dead(t: Tables, m: Message) {
    m.quote in t.quotes || m.signature in t.signatures || m.nonce < ExpectedNonce(t, m.swapper)
  }

  /** Nobody under way with this key can still reach the broadcaster. */
  predicate Blocked(s: State, key: nat) {
    forall id :: id in s.frames && s.frames[id].message.key == key ==>
      && s.frames[id].stage != AwaitingBroadcast
      && (s.frames[id].stage == AwaitingAuthorization ==> Dead(s.tables, s.frames[id].message))
  }

  /** Some amount is under every cap; otherwise nothing is ever admitted. */
  predicate CapsLeaveRoom(p: Limits) { AntiAbuse.Affordable(p, 1) }

  predicate Spent(p: Limits, s: State, key: nat) {
    (key in s.tables.rows || !CapsLeaveRoom(p)) && Blocked(s, key)
  }

  lemma StepKeepsRows(p: Limits, s: State, e: Event, key: nat)
    requires key in s.tables.rows
    ensures key in Step(p, s, e).tables.rows
  {
    hide Welcome;
  }

  /** What is used up stays used up, and nonces only grow. */
  ghost predicate UsedGrows(t: Tables, t': Tables) {
    && t.quotes.Keys <= t'.quotes.Keys && t.signatures <= t'.signatures
    && forall w: nat :: ExpectedNonce(t, w) <= ExpectedNonce(t', w)
  }

  lemma StepUses(p: Limits, s: State, e: Event)
    ensures UsedGrows(s.tables, Step(p, s, e).tables)
  {
    hide Welcome, AntiAbuse.SetStatus;
  }

  lemma WelcomeLeavesRoom(p: Limits, s: State, m: Message, now: int)
    requires Bargains(p, s) && m.terms.usdc > 0 && Welcome(p, s.tables, m, now)
    ensures CapsLeaveRoom(p)
  {
    AdmitBinds(p, s.tables, m, now);
    var t' := Admit(p, s.tables, m, now);
    var i :| 0 <= i < |t'.admissions| && AdmittedFor(t'.admissions[i], m);
    assert Paid(p, t'.admissions[i]);
  }

  lemma SpentSubmit(p: Limits, s: State, id: nat, m: Message, a: Answers, key: nat)
    requires Bargains(p, s) && Spent(p, s, key)
    ensures var s' := Step(p, s, Submit(id, m, a)); NoNewBroadcast(s, s', key) && Blocked(s', key)
  {
    if id !in s.frames && m.key == key && key !in s.tables.rows && Quoted(m, a) && Welcome(p, s.tables, m, a.now) {
      WelcomeLeavesRoom(p, s, m, a.now);
    }
    hide Welcome;
  }

  lemma DeadStays(t: Tables, t': Tables, m: Message)
    requires UsedGrows(t, t')
    ensures Dead(t, m) ==> Dead(t', m)
  {
    assert ExpectedNonce(t, m.swapper) <= ExpectedNonce(t', m.swapper);
  }

  lemma SpentResume(p: Limits, s: State, id: nat, a: Answers, key: nat)
    requires Spent(p, s, key)
    ensures var s' := Step(p, s, Resume(id, a)); NoNewBroadcast(s, s', key) && Blocked(s', key)
  {
    hide AntiAbuse.SetStatus;
    StepUses(p, s, Resume(id, a));
    var s' := Step(p, s, Resume(id, a));
    forall j | j in s'.frames && s'.frames[j].message.key == key
      ensures s'.frames[j].stage != AwaitingBroadcast
      ensures s'.frames[j].stage == AwaitingAuthorization ==> Dead(s'.tables, s'.frames[j].message)
    {
      if j != id { DeadStays(s.tables, s'.tables, s.frames[j].message); }
    }
  }

  lemma SpentStep(p: Limits, s: State, e: Event, key: nat)
    requires Bargains(p, s) && Spent(p, s, key)
    ensures NoNewBroadcast(s, Step(p, s, e), key) && Spent(p, Step(p, s, e), key)
  {
    if key in s.tables.rows { StepKeepsRows(p, s, e, key); }
    match e {
      case Submit(id, m, a) => SpentSubmit(p, s, id, m, a, key);
      case Resume(id, a) => SpentResume(p, s, id, a, key);
      case Crash(id) =>
    }
  }

  lemma {:induction false} SpentStays(p: Limits, s: State, after: seq<Event>, key: nat)
    requires Bargains(p, s) && Spent(p, s, key)
    ensures NoNewBroadcast(s, Run(p, s, after), key)
    decreases |after|
  {
    hide Bargains, Step, Spent;
    if after != [] {
      SpentStep(p, s, after[0], key);
      StepKeepsBargains(p, s, after[0]);
      SpentStays(p, Step(p, s, after[0]), after[1..], key);
    }
  }

  /** Everything `s` broadcasts `s1` can broadcast first and more, so what `s1` can still do `s` can. */
  lemma BroadcastFirst(p: Limits, s: State, first: seq<Event>, m: Message)
    requires Run(p, s, first).tables.broadcasts == s.tables.broadcasts && CanBroadcast(p, Run(p, s, first), m)
    ensures CanBroadcast(p, s, m)
  {
    hide Run;
    var after: seq<Event> :| Run(p, Run(p, s, first), after).tables.broadcasts == s.tables.broadcasts + [m];
    RunAppend(p, s, first, after);
    assert Run(p, s, first + after).tables.broadcasts == s.tables.broadcasts + [m];
  }

  lemma RunTwo(p: Limits, s: State, a: Event, b: Event)
    ensures Run(p, s, [a, b]) == Step(p, Step(p, s, a), b)
  {
    hide Step;
    assert [a, b][1..] == [b] && [b][1..] == [];
    var s1 := Step(p, s, a);
    assert Run(p, s1, [b]) == Run(p, Step(p, s1, b), []);
  }

  lemma AcceptableGoesOut(p: Limits, s: State, id: nat)
    requires id in s.frames && s.frames[id].stage == AwaitingAuthorization && Acceptable(s.tables, s.frames[id].message)
    ensures CanBroadcast(p, s, s.frames[id].message)
  {
    var e := Resume(id, Fine(0));
    var m := s.frames[id].message;
    var s1 := Step(p, s, e);
    assert s1.frames[id] == Frame(AwaitingBroadcast, m);
    RunTwo(p, s, e, e);
    assert Run(p, s, [e, e]).tables.broadcasts == s.tables.broadcasts + [m];
  }

  lemma SendingGoesOut(p: Limits, s: State, id: nat)
    requires Sending(s, id)
    ensures CanBroadcast(p, s, s.frames[id].message)
  {
    var e := Resume(id, Fine(0));
    assert Run(p, s, [e]) == Run(p, Step(p, s, e), []);
    assert Run(p, s, [e]).tables.broadcasts == s.tables.broadcasts + [s.frames[id].message];
  }

  lemma Unused(p: Limits, s: State) returns (key: nat)
    ensures key !in s.tables.rows && !KeyAdmitted(s.tables, key)
  {
    var admitted := set i | 0 <= i < |s.tables.admissions| :: s.tables.admissions[i].key;
    key := SomethingUnused(s.tables.rows.Keys + admitted);
    forall i | 0 <= i < |s.tables.admissions|
      ensures s.tables.admissions[i].key != key
    {
      assert s.tables.admissions[i].key in admitted;
    }
  }

  /** One nonce of the swapper of `m` is used up, and nothing else that matters to `m`. */
  predicate NonceOn(s: State, s': State, m: Message) {
    && s'.tables.broadcasts == s.tables.broadcasts
    && (forall id :: id in s.frames ==> id in s'.frames && s'.frames[id] == s.frames[id])
    && ExpectedNonce(s'.tables, m.swapper) == ExpectedNonce(s.tables, m.swapper) + 1
    && (m.quote in s'.tables.quotes ==> m.quote in s.tables.quotes)
    && (m.signature in s'.tables.signatures ==> m.signature in s.tables.signatures)
  }

  lemma AcceptedMeansNonceOn(p: Limits, s: State, s': State, id: nat, f: Message, now: int, m: Message)
    requires id !in s.frames && Acceptable(s.tables, f) && s'.frames == s.frames[id := Frame(AwaitingBroadcast, f)]
    requires s'.tables == Consume(Admit(p, s.tables, f, now), f).value
    requires f.swapper == m.swapper && f.quote != m.quote && f.signature != m.signature
    ensures NonceOn(s, s', m)
  {
    AdmitAddsOnly(p, s.tables, f, now);
    hide Admit;
  }

  /** Another submission of the same swapper, under a key of its own, uses up the next nonce. */
  lemma OneNonceOn(p: Limits, s: State, m: Message) returns (first: seq<Event>)
    requires Sound(p, s) && CapsLeaveRoom(p)
    ensures Sound(p, Run(p, s, first)) && NonceOn(s, Run(p, s, first), m)
  {
    hide Inv, Bargains, Step, Run, Acceptable, Welcome, Admit, Consume, NonceOn;
    var key := Unused(p, s);
    var f := NextMessage(s.tables, key, m.swapper, Terms(0, 1, 0), {m.quote}, {m.signature});
    assert MayUse(p, s.tables, f);
    hide MayUse;
    var now := WelcomeInTime(p, s, f);
    var id := SomethingUnused(s.frames.Keys);
    var e1, e2 := Submit(id, f, Fine(now)), Resume(id, Fine(now));
    first := [e1, e2];
    RunTwo(p, s, e1, e2);
    MessageIsAccepted(p, s, id, f, now);
    StepKeepsSound(p, s, e1);
    StepKeepsSound(p, Step(p, s, e1), e2);
    AcceptedMeansNonceOn(p, s, Run(p, s, first), id, f, now, m);
  }

  /** A submission that is not dead only waits for its turn: the nonces before its own can be used up by others. */
  lemma {:induction false} LiveGoesOut(p: Limits, s: State, id: nat)
    requires Sound(p, s) && CapsLeaveRoom(p)
    requires id in s.frames && s.frames[id].stage == AwaitingAuthorization && !Dead(s.tables, s.frames[id].message)
    ensures CanBroadcast(p, s, s.frames[id].message)
    decreases s.frames[id].message.nonce - ExpectedNonce(s.tables, s.frames[id].message.swapper)
  {
    var m := s.frames[id].message;
    if m.nonce == ExpectedNonce(s.tables, m.swapper) {
      AcceptableGoesOut(p, s, id);
    } else {
      hide Inv, Bargains, Run;
      var first := OneNonceOn(p, s, m);
      LiveGoesOut(p, Run(p, s, first), id);
      BroadcastFirst(p, s, first, m);
    }
  }

  lemma UnderWayIsPaid(p: Limits, s: State, id: nat)
    requires Bargains(p, s) && id in s.frames
    ensures CapsLeaveRoom(p)
  {
    hide AntiAbuse.Inv;
    var m := s.frames[id].message;
    assert Bound(s.tables, m);
    var i :| 0 <= i < |s.tables.admissions| && AdmittedFor(s.tables.admissions[i], m);
    assert Paid(p, s.tables.admissions[i]);
  }

  /** A key that is not spent is broadcast in some continuation. */
  lemma UnspentGoesOut(p: Limits, s: State, key: nat) returns (m: Message)
    requires Sound(p, s) && !Spent(p, s, key)
    ensures m.key == key && CanBroadcast(p, s, m)
  {
    hide Run, CanBroadcast, Inv, AntiAbuse.Inv;
    if !Blocked(s, key) {
      var id :| id in s.frames && s.frames[id].message.key == key
                && (s.frames[id].stage == AwaitingBroadcast
                    || (s.frames[id].stage == AwaitingAuthorization && !Dead(s.tables, s.frames[id].message)));
      m := s.frames[id].message;
      UnderWayIsPaid(p, s, id);
      if s.frames[id].stage == AwaitingBroadcast { SendingGoesOut(p, s, id); } else { LiveGoesOut(p, s, id); }
    } else if KeyAdmitted(s.tables, key) {
      var i :| 0 <= i < |s.tables.admissions| && s.tables.admissions[i].key == key;
      var e := s.tables.admissions[i];
      var terms := Terms(e.destination, e.usdc, e.sats);
      assert AdmittedFor(e, Message(key, e.wallet, 0, 0, 0, terms));
      m := OpenKeyCanBeUsed(p, s, key, e.wallet, terms);
    } else {
      m := OpenKeyCanBeUsed(p, s, key, 0, Terms(0, 1, 0));
    }
  }

  /**
   In every reachable state: a key is broadcast in no continuation if and only if
   its row exists (or the caps admit nothing at all), nobody awaits its broadcast,
   and whoever awaits authorization under it has a quote, signature or nonce that
   is already used up.
   */
  lemma KeyIsSpentExactly(p: Limits, before: seq<Event>, key: nat)
    ensures var s := Run(p, Start, before);
      (forall after: seq<Event> :: NoNewBroadcast(s, Run(p, s, after), key)) <==> Spent(p, s, key)
  {
    RunIsSound(p, before);
    var s := Run(p, Start, before);
    hide Run, Inv, Bargains, Spent;
    if Spent(p, s, key) {
      forall after: seq<Event> ensures NoNewBroadcast(s, Run(p, s, after), key) { SpentStays(p, s, after, key); }
    } else {
      var m := UnspentGoesOut(p, s, key);
      var after: seq<Event> :| Run(p, s, after).tables.broadcasts == s.tables.broadcasts + [m];
      assert Run(p, s, after).tables.broadcasts[|s.tables.broadcasts|].key == key;
      assert !NoNewBroadcast(s, Run(p, s, after), key);
    }
  }

  // ------------------------------- three ways in which a broadcast leaves no row in time

  const NoDatabase := Fine(0).(insertFails := true, probeSucceeds := false)

  const NoReply := Fine(0).(broadcastReturns := false)

  const Deal := Terms(9, 1, 1)

  /** Two authorizations of one swapper for the same bargain, over two quotes. */
  const First := Message(5, 1, 0, 10, 100, Deal)

  const Second := Message(5, 1, 1, 11, 101, Deal)

  lemma FirstIsWelcome(p: Limits)
    requires CapsLeaveRoom(p)
    ensures Welcome(p, NoTables, First, 0)
  {
  }

  /** The first message accepted, the key still without a row. */
  predicate OnlyFirst(t: Tables) {
    && t.rows == map[] && t.nonces == map[1 := 0] && t.quotes == map[10 := Use(1, 0)]
    && t.signatures == {100} && First in t.consumed
  }

  lemma FirstAccepted(p: Limits) returns (s: State)
    requires CapsLeaveRoom(p)
    ensures s == Step(p, Step(p, Start, Submit(0, First, Fine(0))), Resume(0, Fine(0)))
    ensures Bargains(p, s) && OnlyFirst(s.tables) && s.tables.broadcasts == []
    ensures s.frames == map[0 := Frame(AwaitingBroadcast, First)]
  {
    s := Step(p, Step(p, Start, Submit(0, First, Fine(0))), Resume(0, Fine(0)));
    hide Step, Welcome, Admit, Bargains;
    FirstIsWelcome(p);
    MessageIsAccepted(p, Start, 0, First, 0);
    AdmitAddsOnly(p, NoTables, First, 0);
    StartSound(p);
    StepKeepsBargains(p, Start, Submit(0, First, Fine(0)));
    StepKeepsBargains(p, Step(p, Start, Submit(0, First, Fine(0))), Resume(0, Fine(0)));
    assert s.tables.consumed == [First];
  }

  lemma SecondIsWelcome(p: Limits, s: State, now: int)
    requires Bargains(p, s) && First in s.tables.consumed
    ensures Welcome(p, s.tables, Second, now)
  {
    hide AntiAbuse.Inv, Welcome;
    assert Bound(s.tables, First);
    var i :| 0 <= i < |s.tables.admissions| && AdmittedFor(s.tables.admissions[i], First);
    assert AdmittedFor(s.tables.admissions[i], Second);
    ReturningIsWelcome(p, s, Second, now);
  }

  lemma SecondFollows(p: Limits, s: State, now: int)
    requires Bargains(p, s) && OnlyFirst(s.tables) && s.frames == map[] && s.tables.broadcasts == [First]
    ensures Run(p, s, UpToBroadcast(0, Second, now)).tables.broadcasts == [First, Second]
  {
    SecondIsWelcome(p, s, now);
    hide Bargains, Run;
    MessageIsBroadcast(p, s, 0, Second, now);
  }

  /** If the broadcaster's reply is lost, a second authorization under the same key is broadcast as well. */
  lemma LostReplyLeavesKeyOpen(p: Limits, now: int)
    requires CapsLeaveRoom(p)
    ensures var s := Run(p, Start, [Submit(0, First, Fine(0)), Resume(0, Fine(0)), Resume(0, NoReply)]);
      s.tables.broadcasts == [First] && s.frames == map[]
      && Run(p, s, UpToBroadcast(0, Second, now)).tables.broadcasts == [First, Second]
  {
    RunThree(p, Start, Submit(0, First, Fine(0)), Resume(0, Fine(0)), Resume(0, NoReply));
    var s2 := FirstAccepted(p);
    StepKeepsBargains(p, s2, Resume(0, NoReply));
    var s3 := Step(p, s2, Resume(0, NoReply));
    assert s3.frames == map[] && OnlyFirst(s3.tables);
    hide Bargains, Step, Run;
    SecondFollows(p, s3, now);
  }

  /** So it is if the insert after the broadcast fails. */
  lemma FailedInsertLeavesKeyOpen(p: Limits, now: int)
    requires CapsLeaveRoom(p)
    ensures var s := Run(p, Run(p, Start, UpToBroadcast(0, First, 0)), [Resume(0, NoDatabase), Resume(0, NoDatabase)]);
      s.tables.broadcasts == [First] && s.frames == map[]
      && Run(p, s, UpToBroadcast(0, Second, now)).tables.broadcasts == [First, Second]
  {
    RunThree(p, Start, Submit(0, First, Fine(0)), Resume(0, Fine(0)), Resume(0, Fine(0)));
    var s2 := FirstAccepted(p);
    var s3 := Step(p, s2, Resume(0, Fine(0)));
    StepKeepsBargains(p, s2, Resume(0, Fine(0)));
    RunTwo(p, s3, Resume(0, NoDatabase), Resume(0, NoDatabase));
    assert s3.frames == map[0 := Frame(AwaitingInsert, First)] && OnlyFirst(s3.tables);
    InsertFails(p, s3);
    var s5 := Step(p, Step(p, s3, Resume(0, NoDatabase)), Resume(0, NoDatabase));
    hide Bargains, Step, Run;
    SecondFollows(p, s5, now);
  }

  lemma InsertFails(p: Limits, s: State)
    requires Bargains(p, s) && OnlyFirst(s.tables) && s.frames == map[0 := Frame(AwaitingInsert, First)]
    ensures var s' := Step(p, Step(p, s, Resume(0, NoDatabase)), Resume(0, NoDatabase));
      Bargains(p, s') && OnlyFirst(s'.tables) && s'.frames == map[] && s'.tables == s.tables
  {
    assert First.key !in s.tables.rows;
    hide Bargains, OnlyFirst;
    var s1 := Step(p, s, Resume(0, NoDatabase));
    StepKeepsBargains(p, s, Resume(0, NoDatabase));
    StepKeepsBargains(p, s1, Resume(0, NoDatabase));
    assert s1.frames == map[0 := Frame(AwaitingProbe, First)] && s1.tables == s.tables;
  }

  /** And without any failure if two submissions look for the row before either has written it. */
  lemma ConcurrentSubmissionsBothBroadcast(p: Limits)
    requires CapsLeaveRoom(p)
    ensures var s := Run(p, Start, [Submit(0, First, Fine(0)), Submit(1, Second, Fine(0)), Resume(0, Fine(0))]);
      Run(p, s, [Resume(0, Fine(0)), Resume(1, Fine(0)), Resume(1, Fine(0))]).tables.broadcasts == [First, Second]
  {
    var a := Fine(0);
    RunThree(p, Start, Submit(0, First, a), Submit(1, Second, a), Resume(0, a));
    var s2 := BothSubmitted(p);
    var s3 := Step(p, s2, Resume(0, a));
    assert s3.frames == map[0 := Frame(AwaitingBroadcast, First), 1 := Frame(AwaitingAuthorization, Second)];
    RunThree(p, s3, Resume(0, a), Resume(1, a), Resume(1, a));
    BothGoOut(p, s3);
  }

  lemma BothSubmitted(p: Limits) returns (s: State)
    requires CapsLeaveRoom(p)
    ensures s == Step(p, Step(p, Start, Submit(0, First, Fine(0))), Submit(1, Second, Fine(0)))
    ensures s.frames == map[0 := Frame(AwaitingAuthorization, First), 1 := Frame(AwaitingAuthorization, Second)]
    ensures s.tables == NoTables.(admissions := s.tables.admissions)
  {
    hide Step, Welcome, Admit, Bargains, Inv;
    FirstIsWelcome(p);
    StartSound(p);
    var s1 := Step(p, Start, Submit(0, First, Fine(0)));
    StepKeepsBargains(p, Start, Submit(0, First, Fine(0)));
    SubmitOpens(p, Start, 0, First, 0);
    AdmitAddsOnly(p, NoTables, First, 0);
    FirstBindsSecond(p, s1);
    SubmitOpens(p, s1, 1, Second, 0);
    AdmitAddsOnly(p, s1.tables, Second, 0);
    s := Step(p, s1, Submit(1, Second, Fine(0)));
  }

  lemma FirstBindsSecond(p: Limits, s: State)
    requires Bargains(p, s) && 0 in s.frames && s.frames[0].message == First
    ensures Welcome(p, s.tables, Second, 0)
  {
    hide AntiAbuse.Inv, Welcome;
    assert Bound(s.tables, First);
    var i :| 0 <= i < |s.tables.admissions| && AdmittedFor(s.tables.admissions[i], First);
    assert AdmittedFor(s.tables.admissions[i], Second);
    ReturningIsWelcome(p, s, Second, 0);
  }

  lemma BothGoOut(p: Limits, s: State)
    requires s.frames == map[0 := Frame(AwaitingBroadcast, First), 1 := Frame(AwaitingAuthorization, Second)]
    requires s.tables.broadcasts == [] && Acceptable(s.tables, Second)
    ensures var s' := Step(p, Step(p, Step(p, s, Resume(0, Fine(0))), Resume(1, Fine(0))), Resume(1, Fine(0)));
      s'.tables.broadcasts == [First, Second]
  {
    var s1 := Step(p, s, Resume(0, Fine(0)));
    assert s1.frames[1] == Frame(AwaitingAuthorization, Second);
    var s2 := Step(p, s1, Resume(1, Fine(0)));
    assert s2.frames[1] == Frame(AwaitingBroadcast, Second);
  }
}
