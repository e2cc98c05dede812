/**
 The relayer as a class: one submission that nothing interrupts, over its own
 tables and the admission table it shares with the limits.
 */
module RelayerService {
  import opened Wrappers
  import AntiAbuse
  import opened Relayer

  /** One submission that nothing interrupts, from its opening to its end. */
  function Drive(t: Tables, f: Option<Frame>, a: Answers, n: nat): Tables
    decreases n
  {
    if n == 0 || f.None? then t
    else
      var x := Advance(t, f.value, a);
      Drive(x.tables, x.next, a, n - 1)
  }

  function SubmitAlone(p: Limits, t: Tables, m: Message, a: Answers): Tables {
    var x := Open(p, t, m, a);
    Drive(x.tables, x.next, a, 5)
  }

  ghost predicate ReachedFrom(p: Limits, s: State, t: Tables) {
    exists events: seq<Event> :: Run(p, s, events).tables == t
  }

  function Alone(t: Tables, f: Option<Frame>): State { State(t, if f.Some? then map[0 := f.value] else map[]) }

  /** An uninterrupted submission is one of the runs. */
  lemma {:induction false} DriveIsARun(p: Limits, t: Tables, f: Option<Frame>, a: Answers, n: nat)
    ensures ReachedFrom(p, Alone(t, f), Drive(t, f, a, n))
    decreases n
  {
    hide Advance;
    var s := Alone(t, f);
    if n == 0 || f.None? {
      assert Run(p, s, []).tables == t;
    } else {
      var x := Advance(t, f.value, a);
      DriveIsARun(p, x.tables, x.next, a, n - 1);
      var s1 := Alone(x.tables, x.next);
      var events: seq<Event> :| Run(p, s1, events).tables == Drive(x.tables, x.next, a, n - 1);
      assert Step(p, s, Resume(0, a)).frames == s1.frames;
      assert Step(p, s, Resume(0, a)) == s1;
      assert ([Resume(0, a)] + events)[1..] == events;
      assert Run(p, s, [Resume(0, a)] + events) == Run(p, s1, events);
    }
  }

  class Service {
    const admissions: AntiAbuse.AdmissionTable
    var rows: map<nat, RowStatus>
    var nonces: map<nat, int>
    var quotes: map<nat, Use>
    var signatures: set<nat>
    var consumed: seq<Message>
    var broadcasts: seq<Message>

    function Contents(): Tables
      reads this, admissions
    {
      Tables(rows, admissions.events, nonces, quotes, signatures, consumed, broadcasts)
    }

    ghost predicate Valid()
      reads this, admissions
    {
      admissions.Valid()
    }

    constructor (limits: Limits)
      ensures Contents() == NoTables && Valid() && admissions.limits == limits && fresh(admissions)
    {
      admissions := new AntiAbuse.AdmissionTable(limits);
      rows, nonces, quotes, signatures := map[], map[], map[], {};
      consumed, broadcasts := [], [];
    }

    /** Checks the quote, the signature and the nonce in this order, and records all three or nothing. */
    method VerifyAndConsume(m: Message) returns (ok: bool)
      modifies this`nonces, this`quotes, this`signatures, this`consumed
      ensures ok == Acceptable(old(Contents()), m)
      ensures Contents() == if ok then Consume(old(Contents()), m).value else old(Contents())
    {
      if m.quote in quotes { return false; }
      if m.signature in signatures { return false; }
      var expected := 0;
      if m.swapper in nonces { expected := nonces[m.swapper] + 1; }
      if m.nonce != expected { return false; }
      nonces := nonces[m.swapper := m.nonce];
      quotes := quotes[m.quote := Use(m.swapper, m.nonce)];
      signatures := signatures + {m.signature};
      consumed := consumed + [m];
      ok := true;
    }

    method MarkAdmission(key: nat, s: AntiAbuse.Status)
      requires Valid() && AntiAbuse.Closing(s)
      modifies admissions
      ensures Contents() == SetAdmission(old(Contents()), key, s) && Valid()
    {
      admissions.UpdateSwapStatus(key, s);
    }

    method UpdateRow(key: nat, s: RowStatus)
      modifies this`rows
      ensures Contents() == SetRow(old(Contents()), key, s)
    {
      if key in rows { rows := rows[key := s]; }
    }

    /** From the broadcaster's reply on: insert the row, wait for the receipt, probe once in doubt. */
    method FollowUp(m: Message, a: Answers)
      requires Valid()
      modifies this`rows, admissions
      ensures Contents() == Drive(old(Contents()), Some(Frame(AwaitingInsert, m)), a, 3) && Valid()
    {
      FollowUpUnfolds(Contents(), m, a);
      hide Drive, SetAdmission;
      if m.key !in rows && !a.insertFails {
        rows := rows[m.key := Submitted];
        match a.receipt {
          case RevertedOnChain =>
            MarkAdmission(m.key, AntiAbuse.Cancelled);
            UpdateRow(m.key, Failed);
            return;
          case Succeeded =>
            MarkAdmission(m.key, AntiAbuse.Completed);
            UpdateRow(m.key, Confirmed);
            return;
          case NoReceipt =>
        }
      }
      if a.probeSucceeds {
        MarkAdmission(m.key, AntiAbuse.Completed);
        UpdateRow(m.key, Confirmed);
      } else {
        UpdateRow(m.key, Ambiguous);
      }
    }

    /** The admission under the limits, or its replay for the same swapper and terms. */
    method AdmitSwap(m: Message, now: int) returns (ok: bool)
      requires Valid()
      modifies admissions
      ensures ok == Welcome(admissions.limits, old(Contents()), m, now)
      ensures Contents() == if ok then Admit(admissions.limits, old(Contents()), m, now) else old(Contents())
      ensures Valid()
    {
      var reply := admissions.EvaluateAndRecordAdmission(RequestOf(m), now);
      ok := reply.Ok?;
    }

    method SubmitSwap(m: Message, a: Answers)
      requires Valid()
      modifies this, admissions
      ensures Contents() == SubmitAlone(admissions.limits, old(Contents()), m, a) && Valid()
    {
      SubmitUnfolds(admissions.limits, Contents(), m, a);
      hide Drive, SubmitAlone, SetAdmission, Welcome, Admit;
      if m.key in rows || !a.quoteValid || m.terms.usdc == 0 { return; }
      var welcome := AdmitSwap(m, a.now);
      if !welcome || !a.authorized || a.consumeFails { return; }
      var ok := VerifyAndConsume(m);
      if !ok { return; }
      broadcasts := broadcasts + [m];
      if a.broadcastReturns {
        FollowUp(m, a);
      } else {
        MarkAdmission(m.key, AntiAbuse.Cancelled);
      }
    }
  }

  /** The end of a submission, written out. */
  lemma FollowUpUnfolds(t: Tables, m: Message, a: Answers)
    ensures Drive(t, Some(Frame(AwaitingInsert, m)), a, 3)
         == var u := Advance(t, Frame(AwaitingInsert, m), a);
            var v := Advance(u.tables, u.next.value, a);
            if v.next.None? then v.tables else Advance(v.tables, v.next.value, a).tables
  {
  }

  lemma SubmitUnfolds(p: Limits, t: Tables, m: Message, a: Answers)
    ensures SubmitAlone(p, t, m, a)
         == var x := Open(p, t, m, a);
            if x.next.None? then x.tables
            else
              var y := Advance(x.tables, Frame(AwaitingAuthorization, m), a);
              if y.next.None? then y.tables
              else
                var z := Advance(y.tables, Frame(AwaitingBroadcast, m), a);
                if z.next.None? then z.tables else Drive(z.tables, Some(Frame(AwaitingInsert, m)), a, 3)
  {
    hide Welcome, Admit;
  }
}
