/**
 The gasless relayer: replay tables, execution rows and the external
 broadcast, with any number of submissions interleaved at their awaits.
 */
module Relayer {
  import opened Wrappers
  import AntiAbuse

  type Limits = AntiAbuse.Limits

  /** Where a quote pays to, how much, and for how many satoshis. */
  datatype Terms = Terms(destination: nat, usdc: nat, sats: nat)

  /**
   What a swapper signed, with the idempotency key it is submitted under. The
   terms are those of the quote; a signature over others is not authorized.
   Addresses and signatures are in their normalised form; the signature hash is
   injective, so the signature stands for it.
   */
  datatype Message = Message(key: nat, swapper: nat, nonce: int, quote: nat, signature: nat, terms: Terms)

  datatype RowStatus = Submitted | Confirmed | Failed | Ambiguous

  datatype Use = Use(swapper: nat, nonce: int)

  /** `broadcasts` logs every call of `broadcastTransaction`; `consumed` every accepted authorization, in order. */
  datatype Tables = Tables(
    rows: map<nat, RowStatus>,
    admissions: seq<AntiAbuse.Entry>,
    nonces: map<nat, int>,
    quotes: map<nat, Use>,
    signatures: set<nat>,
    consumed: seq<Message>,
    broadcasts: seq<Message>)

  const NoTables := Tables(map[], [], map[], map[], {}, [], [])

  // ----------------------------------------------------------- nonce manager

  function ExpectedNonce(t: Tables, swapper: nat): int {
    if swapper in t.nonces then t.nonces[swapper] + 1 else 0
  }

  predicate Acceptable(t: Tables, m: Message) {
    m.quote !in t.quotes && m.signature !in t.signatures && m.nonce == ExpectedNonce(t, m.swapper)
  }

  /** Records nonce, quote and signature in one transaction, or throws and records nothing. */
  function Consume(t: Tables, m: Message): Option<Tables> {
    if !Acceptable(t, m) then None
    else
      Some(t.(nonces := t.nonces[m.swapper := m.nonce],
              quotes := t.quotes[m.quote := Use(m.swapper, m.nonce)],
              signatures := t.signatures + {m.signature},
              consumed := t.consumed + [m]))
  }

  // --------------------------------------------------------------- submissions

  /** Where a submission is suspended. */
  datatype Stage = AwaitingAuthorization | AwaitingBroadcast | AwaitingInsert | AwaitingReceipt | AwaitingProbe

  datatype Frame = Frame(stage: Stage, message: Message)

  datatype ReceiptAnswer = Succeeded | RevertedOnChain | NoReceipt

  /** Everything outside the tables that decides how a submission goes on. */
  datatype Answers = Answers(
    now: int,
    quoteValid: bool,
    authorized: bool,
    consumeFails: bool,
    insertFails: bool,
    broadcastReturns: bool,
    receipt: ReceiptAnswer,
    probeSucceeds: bool)

  /** The tables after one section, and the frame it suspends in, if any. */
  datatype Section = Section(tables: Tables, next: Option<Frame>)

  function SetRow(t: Tables, key: nat, s: RowStatus): Tables {
    if key in t.rows then t.(rows := t.rows[key := s]) else t
  }

  function SetAdmission(t: Tables, key: nat, s: AntiAbuse.Status): Tables {
    t.(admissions := AntiAbuse.SetStatus(t.admissions, key, s))
  }

  function RequestOf(m: Message): AntiAbuse.Request {
    AntiAbuse.Request(m.key, m.swapper, m.terms.destination, m.terms.usdc, m.terms.sats)
  }

  /** The admission limits leave room, or the key was admitted before for the same swapper and terms. */
  predicate Welcome(p: Limits, t: Tables, m: Message, now: int) {
    AntiAbuse.Evaluate(p, t.admissions, RequestOf(m), now).Ok?
  }

  function Admit(p: Limits, t: Tables, m: Message, now: int): Tables {
    t.(admissions := AntiAbuse.Record(p, t.admissions, RequestOf(m), now))
  }

  /** A quote of the engine, which issues none for nothing. */
  predicate Quoted(m: Message, a: Answers) { a.quoteValid && m.terms.usdc > 0 }

  /** An existing row answers at once; otherwise the quote and the admission limits are checked. */
  function Open(p: Limits, t: Tables, m: Message, a: Answers): Section {
    if m.key in t.rows || !Quoted(m, a) || !Welcome(p, t, m, a.now) then Section(t, None)
    else Section(Admit(p, t, m, a.now), Some(Frame(AwaitingAuthorization, m)))
  }

  /**
   One section of `submitSwap`, from one await to the next. Accepting the
   authorization and calling the broadcaster are two, because the process may
   die between them.
   */
  function Advance(t: Tables, f: Frame, a: Answers): Section {
    var m := f.message;
    match f.stage
    case AwaitingAuthorization =>
      if !a.authorized || a.consumeFails then Section(t, None)
      else
        (match Consume(t, m)
         case None => Section(t, None)
         case Some(t1) => Section(t1, Some(Frame(AwaitingBroadcast, m))))
    case AwaitingBroadcast =>
      var t1 := t.(broadcasts := t.broadcasts + [m]);
      if a.broadcastReturns then Section(t1, Some(Frame(AwaitingInsert, m)))
      else Section(SetAdmission(t1, m.key, AntiAbuse.Cancelled), None)
    case AwaitingInsert =>
      if a.insertFails || m.key in t.rows then Section(t, Some(Frame(AwaitingProbe, m)))
      else Section(t.(rows := t.rows[m.key := Submitted]), Some(Frame(AwaitingReceipt, m)))
    case AwaitingReceipt =>
      (match a.receipt
       case NoReceipt => Section(t, Some(Frame(AwaitingProbe, m)))
       case RevertedOnChain => Section(SetRow(SetAdmission(t, m.key, AntiAbuse.Cancelled), m.key, Failed), None)
       case Succeeded => Section(SetRow(SetAdmission(t, m.key, AntiAbuse.Completed), m.key, Confirmed), None))
    case AwaitingProbe =>
      if a.probeSucceeds then Section(SetRow(SetAdmission(t, m.key, AntiAbuse.Completed), m.key, Confirmed), None)
      else Section(SetRow(t, m.key, Ambiguous), None)
  }

  // ---------------------------------------------------------------------- runs

  datatype State = State(tables: Tables, frames: map<nat, Frame>)

  datatype Event =
    | Submit(id: nat, message: Message, answers: Answers)
    | Resume(id: nat, answers: Answers)
    | Crash(id: nat)

  function Put(s: State, id: nat, x: Section): State {
    State(x.tables, if x.next.Some? then s.frames[id := x.next.value] else s.frames - {id})
  }

  function Step(p: Limits, s: State, e: Event): State {
    match e
    case Submit(id, m, a) => if id in s.frames then s else Put(s, id, Open(p, s.tables, m, a))
    case Resume(id, a) => if id in s.frames then Put(s, id, Advance(s.tables, s.frames[id], a)) else s
    case Crash(id) => s.(frames := s.frames - {id})
  }

  function Run(p: Limits, s: State, events: seq<Event>): State
    decreases |events|
  {
    if events == [] then s else Run(p, Step(p, s, events[0]), events[1..])
  }

  const Start := State(NoTables, map[])

  // ----------------------------------------------------------------- invariant

  /** The replay tables are exactly what the accepted authorizations say. */
  predicate TablesAgree(t: Tables) {
    && (forall i, j :: 0 <= i < j < |t.consumed| ==>
          t.consumed[i].quote != t.consumed[j].quote && t.consumed[i].signature != t.consumed[j].signature)
    && (forall i :: 0 <= i < |t.consumed| ==>
          && t.consumed[i].quote in t.quotes
          && t.quotes[t.consumed[i].quote] == Use(t.consumed[i].swapper, t.consumed[i].nonce)
          && t.consumed[i].signature in t.signatures)
    && (forall q :: q in t.quotes ==>
          t.quotes[q].swapper in t.nonces && 0 <= t.quotes[q].nonce <= t.nonces[t.quotes[q].swapper])
    && (forall s :: s in t.nonces ==> t.nonces[s] >= 0)
  }

  predicate QuoteFor(t: Tables, q: nat, swapper: nat, nonce: int) {
    q in t.quotes && t.quotes[q] == Use(swapper, nonce)
  }

  ghost predicate NonceUsed(t: Tables, swapper: nat, nonce: int) { exists q :: QuoteFor(t, q, swapper, nonce) }

  /** Every nonce up to the current one was consumed, by exactly one quote. */
  ghost predicate NoncesAreGapless(t: Tables) {
    && (forall s, n :: s in t.nonces && 0 <= n <= t.nonces[s] ==> NonceUsed(t, s, n))
    && (forall q, r, s, n :: QuoteFor(t, q, s, n) && QuoteFor(t, r, s, n) ==> q == r)
  }

  predicate Sending(s: State, id: nat) { id in s.frames && s.frames[id].stage == AwaitingBroadcast }

  /** Broadcast messages and those about to be broadcast are accepted authorizations, each used once. */
  ghost predicate BroadcastsAgree(s: State) {
    && (forall i :: 0 <= i < |s.tables.broadcasts| ==> s.tables.broadcasts[i] in s.tables.consumed)
    && (forall i, j :: 0 <= i < j < |s.tables.broadcasts| ==>
          s.tables.broadcasts[i].quote != s.tables.broadcasts[j].quote)
    && (forall id :: Sending(s, id) ==>
          s.frames[id].message in s.tables.consumed
          && forall i :: 0 <= i < |s.tables.broadcasts| ==> s.tables.broadcasts[i].quote != s.frames[id].message.quote)
    && (forall a, b :: Sending(s, a) && Sending(s, b) && a != b ==>
          s.frames[a].message.quote != s.frames[b].message.quote)
  }

  ghost predicate Inv(s: State) { TablesAgree(s.tables) && NoncesAreGapless(s.tables) && BroadcastsAgree(s) }

  lemma ConsumeKeepsTables(t: Tables, m: Message)
    requires TablesAgree(t) && Acceptable(t, m)
    ensures TablesAgree(Consume(t, m).value)
  {
  }

  lemma ConsumeKeepsGapless(t: Tables, m: Message)
    requires TablesAgree(t) && NoncesAreGapless(t) && Acceptable(t, m)
    ensures NoncesAreGapless(Consume(t, m).value)
  {
    var u := Consume(t, m).value;
    forall s, n | s in u.nonces && 0 <= n <= u.nonces[s]
      ensures NonceUsed(u, s, n)
    {
      if s == m.swapper && n == m.nonce {
        assert QuoteFor(u, m.quote, s, n);
      } else {
        assert s in t.nonces && n <= t.nonces[s];
        assert NonceUsed(t, s, n);
        var q :| QuoteFor(t, q, s, n);
        assert QuoteFor(u, q, s, n);
      }
    }
    forall q, r, s, n | QuoteFor(u, q, s, n) && QuoteFor(u, r, s, n)
      ensures q == r
    {
      if q != m.quote && r != m.quote { assert QuoteFor(t, q, s, n) && QuoteFor(t, r, s, n); }
    }
  }

  /** A quote that is still free was neither broadcast nor is about to be. */
  lemma ConsumedSoFar(s: State, m: Message)
    requires TablesAgree(s.tables) && BroadcastsAgree(s) && m.quote !in s.tables.quotes
    ensures forall i :: 0 <= i < |s.tables.broadcasts| ==> s.tables.broadcasts[i].quote != m.quote
    ensures forall id :: Sending(s, id) ==> s.frames[id].message.quote != m.quote
  {
    forall x | x in s.tables.consumed
      ensures x.quote != m.quote
    {
      var i :| 0 <= i < |s.tables.consumed| && s.tables.consumed[i] == x;
    }
  }

  lemma ConsumeKeepsInv(s: State, id: nat)
    requires Inv(s) && id in s.frames && s.frames[id].stage == AwaitingAuthorization
    requires Acceptable(s.tables, s.frames[id].message)
    ensures var m := s.frames[id].message;
      Inv(State(Consume(s.tables, m).value, s.frames[id := Frame(AwaitingBroadcast, m)]))
  {
    var m := s.frames[id].message;
    ConsumeKeepsTables(s.tables, m);
    ConsumeKeepsGapless(s.tables, m);
    ConsumedSoFar(s, m);
    hide NoncesAreGapless, TablesAgree;
  }

  lemma BroadcastKeepsInv(s: State, id: nat, a: Answers)
    requires Inv(s) && id in s.frames && s.frames[id].stage == AwaitingBroadcast
    ensures Inv(Put(s, id, Advance(s.tables, s.frames[id], a)))
  {
    var s' := Put(s, id, Advance(s.tables, s.frames[id], a));
    GaplessFrame(s.tables, s'.tables);
    TablesFrame(s.tables, s'.tables);
    hide NoncesAreGapless, TablesAgree;
  }

  lemma GaplessFrame(t: Tables, u: Tables)
    requires u.quotes == t.quotes && u.nonces == t.nonces && NoncesAreGapless(t)
    ensures NoncesAreGapless(u)
  {
    forall s, n | s in u.nonces && 0 <= n <= u.nonces[s]
      ensures NonceUsed(u, s, n)
    {
      assert NonceUsed(t, s, n);
      var q :| QuoteFor(t, q, s, n);
      assert QuoteFor(u, q, s, n);
    }
    forall q, r, s, n | QuoteFor(u, q, s, n) && QuoteFor(u, r, s, n)
      ensures q == r
    {
      assert QuoteFor(t, q, s, n) && QuoteFor(t, r, s, n);
    }
  }

  lemma TablesFrame(t: Tables, u: Tables)
    requires TablesAgree(t) && u.quotes == t.quotes && u.nonces == t.nonces && u.signatures == t.signatures
    requires u.consumed == t.consumed
    ensures TablesAgree(u)
  {
  }

  /** The other sections touch neither the replay tables nor the log. */
  lemma OtherKeepsInv(s: State, id: nat, x: Section)
    requires Inv(s) && (x.next.Some? ==> x.next.value.stage != AwaitingBroadcast)
    requires x.tables == s.tables.(rows := x.tables.rows, admissions := x.tables.admissions)
    ensures Inv(Put(s, id, x))
  {
    GaplessFrame(s.tables, x.tables);
    TablesFrame(s.tables, x.tables);
    FramesShrink(s, id, x);
    hide NoncesAreGapless, TablesAgree, BroadcastsAgree;
  }

  lemma FramesShrink(s: State, id: nat, x: Section)
    requires BroadcastsAgree(s) && (x.next.Some? ==> x.next.value.stage != AwaitingBroadcast)
    requires x.tables.consumed == s.tables.consumed && x.tables.broadcasts == s.tables.broadcasts
    ensures BroadcastsAgree(Put(s, id, x))
  {
    var s' := Put(s, id, x);
    forall j | Sending(s', j)
      ensures Sending(s, j) && s'.frames[j] == s.frames[j]
    {
      assert j != id;
    }
  }

  lemma StepKeepsInv(p: Limits, s: State, e: Event)
    requires Inv(s)
    ensures Inv(Step(p, s, e))
  {
    hide Inv;
    match e {
      case Submit(id, m, a) => if id !in s.frames { OtherKeepsInv(s, id, Open(p, s.tables, m, a)); }
      case Crash(id) => OtherKeepsInv(s, id, Section(s.tables, None));
      case Resume(id, a) =>
        if id in s.frames {
          var f := s.frames[id];
          if f.stage == AwaitingBroadcast {
            BroadcastKeepsInv(s, id, a);
          } else if f.stage == AwaitingAuthorization && a.authorized && !a.consumeFails
                    && Acceptable(s.tables, f.message)
          {
            ConsumeKeepsInv(s, id);
          } else {
            OtherKeepsInv(s, id, Advance(s.tables, f, a));
          }
        }
    }
  }

  lemma {:induction false} RunKeepsInv(p: Limits, s: State, events: seq<Event>)
    requires Inv(s)
    ensures Inv(Run(p, s, events))
    decreases |events|
  {
    hide Inv, Step;
    if events != [] {
      StepKeepsInv(p, s, events[0]);
      RunKeepsInv(p, Step(p, s, events[0]), events[1..]);
    }
  }

  lemma StartInv()
    ensures Inv(Start)
  {
  }

  // --------------------------------------------------------------- theorems

  /**
   Over any interleaving, any keys and any failures, no two calls of
   `broadcastTransaction` share a quote, a signature, or a swapper and nonce.
   */
  lemma BroadcastAtMostOnce(p: Limits, events: seq<Event>, i: nat, j: nat)
    requires i < j < |Run(p, Start, events).tables.broadcasts|
    ensures var b := Run(p, Start, events).tables.broadcasts;
      && b[i].quote != b[j].quote && b[i].signature != b[j].signature
      && (b[i].swapper != b[j].swapper || b[i].nonce != b[j].nonce)
  {
    StartInv();
    RunKeepsInv(p, Start, events);
    hide Run, Inv;
    BroadcastsDiffer(Run(p, Start, events), i, j);
  }

  lemma BroadcastsDiffer(s: State, i: nat, j: nat)
    requires Inv(s) && i < j < |s.tables.broadcasts|
    ensures var b := s.tables.broadcasts;
      && b[i].quote != b[j].quote && b[i].signature != b[j].signature
      && (b[i].swapper != b[j].swapper || b[i].nonce != b[j].nonce)
  {
    var t := s.tables;
    var x, y := t.broadcasts[i], t.broadcasts[j];
    assert x in t.consumed && y in t.consumed;
    var k :| 0 <= k < |t.consumed| && t.consumed[k] == x;
    var l :| 0 <= l < |t.consumed| && t.consumed[l] == y;
    assert QuoteFor(t, x.quote, x.swapper, x.nonce) && QuoteFor(t, y.quote, y.swapper, y.nonce);
  }

  /** Each swapper's consumed nonces are exactly 0 up to the current one, each tied to one quote. */
  lemma NoncesAreTheirHistory(p: Limits, events: seq<Event>, swapper: nat, nonce: int)
    ensures var t := Run(p, Start, events).tables;
      && ((exists q :: QuoteFor(t, q, swapper, nonce)) <==> swapper in t.nonces && 0 <= nonce <= t.nonces[swapper])
      && (forall q, r :: QuoteFor(t, q, swapper, nonce) && QuoteFor(t, r, swapper, nonce) ==> q == r)
  {
    StartInv();
    RunKeepsInv(p, Start, events);
    hide Run;
    var t := Run(p, Start, events).tables;
    if swapper in t.nonces && 0 <= nonce <= t.nonces[swapper] { assert NonceUsed(t, swapper, nonce); }
  }
}
