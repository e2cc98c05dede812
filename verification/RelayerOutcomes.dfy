/**
 How submissions end: the row and the admission that the receipt, the probe or
 their absence leave behind, for one submission and over interleaved runs.
 */
module RelayerOutcomes {
  import opened Wrappers
  import AntiAbuse
  import opened Relayer
  import opened RelayerService

  // -------------------------------------------------------------- one submission

  /** The admission of this key has the status; every other admission is as before. */
  predicate AdmissionIs(a: seq<AntiAbuse.Entry>, b: seq<AntiAbuse.Entry>, key: nat, s: AntiAbuse.Status) {
    |b| == |a| && forall i :: 0 <= i < |a| ==> b[i] == if a[i].key == key then a[i].(status := s) else a[i]
  }

  /** The submission gets as far as the call of the broadcaster. */
  predicate Goes(p: Limits, t: Tables, m: Message, a: Answers) {
    && m.key !in t.rows && a.quoteValid && m.terms.usdc > 0 && Welcome(p, t, m, a.now)
    && a.authorized && !a.consumeFails && Acceptable(t, m)
  }

  /** What replaces the tables of accepted authorizations and broadcasts, whatever happens afterwards. */
  predicate Accepted(t: Tables, u: Tables, m: Message) {
    && u.broadcasts == t.broadcasts + [m] && u.consumed == t.consumed + [m]
    && u.nonces == t.nonces[m.swapper := m.nonce] && u.quotes == t.quotes[m.quote := Use(m.swapper, m.nonce)]
    && u.signatures == t.signatures + {m.signature}
  }

  /** The probe's answer where no receipt was heard. */
  predicate Doubt(t: Tables, u: Tables, key: nat, a: Answers, rows: map<nat, RowStatus>) {
    if a.probeSucceeds
    then u.rows == (if key in rows then rows[key := Confirmed] else rows)
         && AdmissionIs(t.admissions, u.admissions, key, AntiAbuse.Completed)
    else u.rows == (if key in rows then rows[key := Ambiguous] else rows) && u.admissions == t.admissions
  }

  /**
   The end of a submission that was broadcast. `t` are the tables with its
   admission recorded: a receipt decides row and admission, a missing one leaves
   it to the probe, and a lost reply writes no row.
   */
  predicate Ended(t: Tables, u: Tables, key: nat, a: Answers) {
    if !a.broadcastReturns
    then u.rows == t.rows && AdmissionIs(t.admissions, u.admissions, key, AntiAbuse.Cancelled)
    else if a.insertFails
    then Doubt(t, u, key, a, t.rows)
    else
      match a.receipt
      case Succeeded =>
        u.rows == t.rows[key := Confirmed] && AdmissionIs(t.admissions, u.admissions, key, AntiAbuse.Completed)
      case RevertedOnChain =>
        u.rows == t.rows[key := Failed] && AdmissionIs(t.admissions, u.admissions, key, AntiAbuse.Cancelled)
      case NoReceipt => Doubt(t, u, key, a, t.rows[key := Submitted])
  }

  lemma FollowUpEnds(t: Tables, m: Message, a: Answers)
    requires m.key !in t.rows && a.broadcastReturns
    ensures var u := Drive(t, Some(Frame(AwaitingInsert, m)), a, 3);
      && Ended(t, u, m.key, a)
      && u.broadcasts == t.broadcasts && u.consumed == t.consumed && u.nonces == t.nonces && u.quotes == t.quotes
      && u.signatures == t.signatures
  {
    FollowUpUnfolds(t, m, a);
    hide Drive, AntiAbuse.SetStatus;
  }

  /**
   A new key whose submission reaches the broadcaster: the authorization is used
   up, the message is sent once, and row and admission say what was heard.
   */
  lemma SubmissionEnds(p: Limits, t: Tables, m: Message, a: Answers)
    requires Goes(p, t, m, a)
    ensures var u := SubmitAlone(p, t, m, a);
      Accepted(t, u, m) && Ended(Admit(p, t, m, a.now), u, m.key, a)
  {
    SubmitUnfolds(p, t, m, a);
    hide Drive, SubmitAlone, Welcome, AntiAbuse.SetStatus, AntiAbuse.Record, Ended;
    var t1 := Admit(p, t, m, a.now);
    var t2 := Consume(t1, m).value;
    var t3 := t2.(broadcasts := t2.broadcasts + [m]);
    if a.broadcastReturns {
      FollowUpEnds(t3, m, a);
      EndedFramed(t3, t1, SubmitAlone(p, t, m, a), m.key, a);
    } else {
      LostReplyEnds(t1, SetAdmission(t3, m.key, AntiAbuse.Cancelled), m.key, a);
    }
  }

  lemma EndedFramed(t: Tables, t': Tables, u: Tables, key: nat, a: Answers)
    requires t.rows == t'.rows && t.admissions == t'.admissions && Ended(t, u, key, a)
    ensures Ended(t', u, key, a)
  {
  }

  lemma LostReplyEnds(t: Tables, u: Tables, key: nat, a: Answers)
    requires !a.broadcastReturns && u.rows == t.rows
    requires u.admissions == AntiAbuse.SetStatus(t.admissions, key, AntiAbuse.Cancelled)
    ensures Ended(t, u, key, a)
  {
  }

  /** A submission that does not get there changes nothing, or leaves its admission behind. */
  lemma RefusedSubmissionEnds(p: Limits, t: Tables, m: Message, a: Answers)
    requires !Goes(p, t, m, a)
    ensures SubmitAlone(p, t, m, a)
         == if m.key !in t.rows && a.quoteValid && m.terms.usdc > 0 && Welcome(p, t, m, a.now)
            then Admit(p, t, m, a.now) else t
  {
    SubmitUnfolds(p, t, m, a);
    hide Drive, SubmitAlone, Welcome, AntiAbuse.Record;
  }

  /** A new admission is ADMITTED for this swapper and these terms; a known one is left as it is. */
  lemma AdmissionEnds(p: Limits, t: Tables, m: Message, now: int)
    requires Welcome(p, t, m, now)
    ensures var u := Admit(p, t, m, now).admissions;
      if AntiAbuse.FindKey(t.admissions, m.key).Some? then u == t.admissions
      else u == t.admissions + [AntiAbuse.Entry(m.key, m.swapper, m.terms.destination, m.terms.usdc, m.terms.sats,
                                                AntiAbuse.Admitted, now)]
  {
    hide AntiAbuse.CheckAndAdmit, AntiAbuse.Volume;
  }

  // ------------------------------------------------------------- interleaved runs

  predicate At(s: State, e: Event, stage: Stage, key: nat) {
    e.Resume? && e.id in s.frames && s.frames[e.id].stage == stage && s.frames[e.id].message.key == key
  }

  /** A receipt or a probe reports success for the key. */
  predicate HearsSuccess(s: State, e: Event, key: nat) {
    || (At(s, e, AwaitingReceipt, key) && e.answers.receipt == Succeeded)
    || (At(s, e, AwaitingProbe, key) && e.answers.probeSucceeds)
  }

  predicate HearsRevert(s: State, e: Event, key: nat) {
    At(s, e, AwaitingReceipt, key) && e.answers.receipt == RevertedOnChain
  }

  predicate LosesReply(s: State, e: Event, key: nat) {
    At(s, e, AwaitingBroadcast, key) && !e.answers.broadcastReturns
  }

  predicate HeardSuccess(p: Limits, s: State, events: seq<Event>, key: nat)
    decreases |events|
  {
    events != []
    && (HearsSuccess(s, events[0], key) || HeardSuccess(p, Step(p, s, events[0]), events[1..], key))
  }

  predicate HeardRevert(p: Limits, s: State, events: seq<Event>, key: nat)
    decreases |events|
  {
    events != []
    && (HearsRevert(s, events[0], key) || HeardRevert(p, Step(p, s, events[0]), events[1..], key))
  }

  predicate LostReply(p: Limits, s: State, events: seq<Event>, key: nat)
    decreases |events|
  {
    events != []
    && (LosesReply(s, events[0], key) || LostReply(p, Step(p, s, events[0]), events[1..], key))
  }

  predicate RowIs(t: Tables, key: nat, r: RowStatus) { key in t.rows && t.rows[key] == r }

  predicate HasAdmission(a: seq<AntiAbuse.Entry>, key: nat, s: AntiAbuse.Status) {
    exists i :: 0 <= i < |a| && a[i].key == key && a[i].status == s
  }

  lemma RowStep(p: Limits, s: State, e: Event, key: nat)
    ensures RowIs(Step(p, s, e).tables, key, Confirmed) ==> RowIs(s.tables, key, Confirmed) || HearsSuccess(s, e, key)
    ensures RowIs(Step(p, s, e).tables, key, Failed) ==> RowIs(s.tables, key, Failed) || HearsRevert(s, e, key)
  {
    hide Welcome, AntiAbuse.SetStatus, AntiAbuse.Record;
  }

  lemma StatusStep(t: Tables, key: nat, k: nat, s: AntiAbuse.Status, r: AntiAbuse.Status)
    ensures HasAdmission(SetAdmission(t, k, s).admissions, key, r) ==>
      HasAdmission(t.admissions, key, r) || (k == key && r == s)
  {
    var u := SetAdmission(t, k, s);
    if HasAdmission(u.admissions, key, r) {
      var i :| 0 <= i < |u.admissions| && u.admissions[i].key == key && u.admissions[i].status == r;
      assert t.admissions[i].key == key;
    }
  }

  lemma AdmitStep(p: Limits, t: Tables, m: Message, now: int, key: nat, r: AntiAbuse.Status)
    requires r != AntiAbuse.Admitted
    ensures HasAdmission(Admit(p, t, m, now).admissions, key, r) ==> HasAdmission(t.admissions, key, r)
  {
    hide AntiAbuse.Evaluate;
    var u := Admit(p, t, m, now);
    if HasAdmission(u.admissions, key, r) {
      var i :| 0 <= i < |u.admissions| && u.admissions[i].key == key && u.admissions[i].status == r;
      assert i < |t.admissions|;
    }
  }

  lemma AdmissionStep(p: Limits, s: State, e: Event, key: nat)
    ensures var u := Step(p, s, e).tables;
      && (HasAdmission(u.admissions, key, AntiAbuse.Completed) ==>
            HasAdmission(s.tables.admissions, key, AntiAbuse.Completed) || HearsSuccess(s, e, key))
      && (HasAdmission(u.admissions, key, AntiAbuse.Cancelled) ==>
            || HasAdmission(s.tables.admissions, key, AntiAbuse.Cancelled)
            || HearsRevert(s, e, key) || LosesReply(s, e, key))
  {
    match e {
      case Submit(id, m, a) =>
        AdmitStep(p, s.tables, m, a.now, key, AntiAbuse.Completed);
        AdmitStep(p, s.tables, m, a.now, key, AntiAbuse.Cancelled);
        hide Welcome, Admit, HasAdmission;
      case Resume(id, a) =>
        if id in s.frames {
          var k := s.frames[id].message.key;
          StatusStep(s.tables, key, k, AntiAbuse.Completed, AntiAbuse.Completed);
          StatusStep(s.tables, key, k, AntiAbuse.Completed, AntiAbuse.Cancelled);
          StatusStep(s.tables, key, k, AntiAbuse.Cancelled, AntiAbuse.Completed);
          StatusStep(s.tables, key, k, AntiAbuse.Cancelled, AntiAbuse.Cancelled);
          hide AntiAbuse.SetStatus, HasAdmission;
        }
      case Crash(id) =>
    }
  }

  /**
   Over interleaved runs: a row says CONFIRMED only if a success was heard under
   its key and FAILED only if a revert was; its admission is COMPLETED only after
   a success and CANCELLED only after a revert or a lost reply.
   */
  lemma {:induction false} OutcomesWereHeard(p: Limits, s: State, events: seq<Event>, key: nat)
    ensures var t := Run(p, s, events).tables;
      && (RowIs(t, key, Confirmed) ==> RowIs(s.tables, key, Confirmed) || HeardSuccess(p, s, events, key))
      && (RowIs(t, key, Failed) ==> RowIs(s.tables, key, Failed) || HeardRevert(p, s, events, key))
      && (HasAdmission(t.admissions, key, AntiAbuse.Completed) ==>
            HasAdmission(s.tables.admissions, key, AntiAbuse.Completed) || HeardSuccess(p, s, events, key))
      && (HasAdmission(t.admissions, key, AntiAbuse.Cancelled) ==>
            || HasAdmission(s.tables.admissions, key, AntiAbuse.Cancelled)
            || HeardRevert(p, s, events, key) || LostReply(p, s, events, key))
    decreases |events|
  {
    hide Step, RowIs, HasAdmission, HearsSuccess, HearsRevert, LosesReply;
    if events != [] {
      RowStep(p, s, events[0], key);
      AdmissionStep(p, s, events[0], key);
      OutcomesWereHeard(p, Step(p, s, events[0]), events[1..], key);
    }
  }

  /** From the empty tables every outcome on record was therefore heard in the run. */
  lemma RecordedOutcomesWereHeard(p: Limits, events: seq<Event>, key: nat)
    ensures var t := Run(p, Start, events).tables;
      && (RowIs(t, key, Confirmed) ==> HeardSuccess(p, Start, events, key))
      && (RowIs(t, key, Failed) ==> HeardRevert(p, Start, events, key))
      && (HasAdmission(t.admissions, key, AntiAbuse.Completed) ==> HeardSuccess(p, Start, events, key))
      && (HasAdmission(t.admissions, key, AntiAbuse.Cancelled) ==>
            HeardRevert(p, Start, events, key) || LostReply(p, Start, events, key))
  {
    hide Run, HeardSuccess, HeardRevert, LostReply;
    OutcomesWereHeard(p, Start, events, key);
  }
}
