/** What holds of messages over a whole run of calls, each one step: envelopes never change, a
    resend is harmless, and a closed tac stays as it was. */
module MailHistory {
  import opened Tables
  import opened Identifiers
  import opened Deliveries
  import opened BusRuns
  import S = Sending
  import T = Tacs

  // ─── envelopes ────────────────────────────────────────────────

  lemma StepKeepsMessages(env: Env, s: Ledger, op: Op)
    ensures s.messages <= Step(env, s, op).messages
  {
    if op.Send? {
      S.AllOrNothing(env, s, op.letter);
    } else if MovesRows(op) {
      RowFrame(env, s, op);
    } else {
      OtherStepsLeaveMail(env, s, op);
    }
  }

  /** A stored envelope is never rewritten, dropped or reordered. */
  lemma {:induction false} EnvelopesAreForever(env: Env, states: seq<Ledger>, ops: seq<Op>, i: nat, j: nat)
    requires IsRun(env, states, ops) && i <= j < |states|
    ensures states[i].messages <= states[j].messages
  {
    if i < j {
      EnvelopesAreForever(env, states, ops, i, j - 1);
      assert StepAt(env, states, ops, j - 1);
      StepKeepsMessages(env, states[j - 1], ops[j - 1]);
    }
  }

  lemma FindStays(ms: seq<Message>, more: seq<Message>, id: string)
    requires ms <= more && UniqueIds(more) && Find(ms, id).Some?
    ensures Find(more, id) == Find(ms, id)
  {
    var m := Find(ms, id).value;
    var k :| 0 <= k < |ms| && ms[k] == m;
    assert more[k] == m;
    FindIs(more, m);
  }

  // ─── the recipients of a stored message ───────────────────────

  lemma {:induction false} RecipientsByColumns(ds: seq<Delivery>, es: seq<Delivery>, mid: string)
    requires |ds| == |es| && forall i :: 0 <= i < |ds| ==> ds[i].mid == es[i].mid && ds[i].recipient == es[i].recipient
    ensures S.RecipientsOf(ds, mid) == S.RecipientsOf(es, mid)
  {
    if ds != [] {
      RecipientsByColumns(ds[..|ds| - 1], es[..|es| - 1], mid);
    }
  }

  lemma {:induction false} RecipientsOfBoth(ds: seq<Delivery>, es: seq<Delivery>, mid: string)
    ensures S.RecipientsOf(ds + es, mid) == S.RecipientsOf(ds, mid) + S.RecipientsOf(es, mid)
  {
    if es == [] {
      assert ds + es == ds;
    } else {
      var all := ds + es;
      RecipientsOfBoth(ds, es[..|es| - 1], mid);
      assert all[..|all| - 1] == ds + es[..|es| - 1] && all[|all| - 1] == es[|es| - 1];
    }
  }

  lemma {:induction false} RecipientsOfRows(id: string, to: seq<string>, mid: string)
    ensures S.RecipientsOf(S.Rows(id, to), mid) == if id == mid then multiset(to) else multiset{}
  {
    if to != [] {
      var front := to[..|to| - 1];
      RecipientsOfRows(id, front, mid);
      assert S.Rows(id, to)[..|to| - 1] == S.Rows(id, front);
      assert to == front + [to[|to| - 1]];
    }
  }

  lemma {:induction false} NoRecipients(ds: seq<Delivery>, mid: string)
    requires forall i :: 0 <= i < |ds| ==> ds[i].mid != mid
    ensures S.RecipientsOf(ds, mid) == multiset{}
  {
    if ds != [] { NoRecipients(ds[..|ds| - 1], mid); }
  }

  lemma StoredRecipients(env: Env, s: Ledger, l: S.Letter)
    requires S.WellFormed(s) && S.Send(env, s, l).1.Stored?
    ensures var (t, r) := S.Send(env, s, l); S.RecipientsOf(t.deliveries, r.id) == multiset(r.recipients)
  {
    var (t, r) := S.Send(env, s, l);
    S.AllOrNothing(env, s, l);
    forall i | 0 <= i < |s.deliveries| ensures s.deliveries[i].mid != r.id {
      assert Find(s.messages, s.deliveries[i].mid).Some?;
    }
    NoRecipients(s.deliveries, r.id);
    RecipientsOfBoth(s.deliveries, S.Rows(r.id, r.recipients), r.id);
    RecipientsOfRows(r.id, r.recipients, r.id);
  }

  lemma AppendKeepsRecipients(s: Ledger, m: Message, to: seq<string>, mid: string)
    requires Find(s.messages, mid).Some? && Find(s.messages, m.id).None?
    ensures S.RecipientsOf(S.Append(s, m, to).deliveries, mid) == S.RecipientsOf(s.deliveries, mid)
  {
    RecipientsOfBoth(s.deliveries, S.Rows(m.id, to), mid);
    RecipientsOfRows(m.id, to, mid);
  }

  lemma SendKeepsRecipients(env: Env, s: Ledger, l: S.Letter, mid: string)
    requires Find(s.messages, mid).Some?
    ensures S.RecipientsOf(S.Send(env, s, l).0.deliveries, mid) == S.RecipientsOf(s.deliveries, mid)
  {
    S.AllOrNothing(env, s, l);
    var r := S.Send(env, s, l).1;
    if r.Stored? {
      S.StoredFacts(env, s, l);
      AppendKeepsRecipients(s, S.Envelope(env, s.messages, l), S.Valid(s, l), mid);
    }
  }

  lemma StepKeepsRecipients(env: Env, s: Ledger, op: Op, mid: string)
    requires Find(s.messages, mid).Some?
    ensures S.RecipientsOf(Step(env, s, op).deliveries, mid) == S.RecipientsOf(s.deliveries, mid)
  {
    var t := Step(env, s, op);
    if op.Send? {
      SendKeepsRecipients(env, s, op.letter, mid);
    } else {
      StepMovesTable(env, s, op);
      MovesKeepRecipients(s.deliveries, t.deliveries, mid);
    }
  }

  lemma MovesKeepRecipients(ds: seq<Delivery>, es: seq<Delivery>, mid: string)
    requires TableStep(ds, es) && |es| == |ds|
    ensures S.RecipientsOf(es, mid) == S.RecipientsOf(ds, mid)
  {
    forall i | 0 <= i < |ds| ensures ds[i].mid == es[i].mid && ds[i].recipient == es[i].recipient {
      assert RowStep(ds[i], es[i]);
    }
    RecipientsByColumns(ds, es, mid);
  }

  lemma {:induction false} RecipientsAreForever(env: Env, states: seq<Ledger>, ops: seq<Op>, i: nat, j: nat,
        mid: string)
    requires IsRun(env, states, ops) && i <= j < |states| && Find(states[i].messages, mid).Some?
    ensures S.RecipientsOf(states[j].deliveries, mid) == S.RecipientsOf(states[i].deliveries, mid)
    ensures Find(states[j].messages, mid) == Find(states[i].messages, mid)
  {
    if i < j {
      RecipientsAreForever(env, states, ops, i, j - 1, mid);
      assert StepAt(env, states, ops, j - 1);
      StepKeepsRecipients(env, states[j - 1], ops[j - 1], mid);
      StepKeepsMessages(env, states[j - 1], ops[j - 1]);
      EveryStateIsGood(env, states, ops, j);
      FindStays(states[j - 1].messages, states[j].messages, mid);
    }
  }

  // ─── a resend is harmless ─────────────────────────────────────

  /** The same call again, now naming the id the first call returned. */
  predicate SameCall(first: S.Letter, again: S.Letter, id: string) {
    && again.sender == first.sender && again.subject == first.subject && again.body == first.body
    && again.priority == first.priority && again.expires == first.expires
    && again.replyTo == first.replyTo && again.threadId == first.threadId
    && S.MessageId(again) == id
  }

  lemma StoredEnvelope(env: Env, s: Ledger, l: S.Letter)
    requires S.Send(env, s, l).1.Stored?
    ensures !l.expires.Malformed? && S.KnownPriority(l.priority)
    ensures var (t, r) := S.Send(env, s, l);
            && r.id == S.MessageId(l)
            && Find(t.messages, r.id) == Some(S.Envelope(env, s.messages, l))
            && S.ReplyExists(s.messages, S.Envelope(env, s.messages, l))
  {
    S.StoredFacts(env, s, l);
    FindAppend(s.messages, S.Envelope(env, s.messages, l), S.MessageId(l));
  }

  /** The thread a later identical call computes is the thread that was stored. */
  lemma ThreadIsStable(env: Env, s: Ledger, l: S.Letter, later: seq<Message>, again: S.Letter)
    requires S.WellFormed(s) && S.Send(env, s, l).1.Stored? && SameCall(l, again, S.MessageId(l))
    requires S.Send(env, s, l).0.messages <= later && UniqueIds(later)
    requires S.MessageId(l) != ""
    ensures S.Thread(later, again) == S.Thread(s.messages, l)
  {
    StoredEnvelope(env, s, l);
    S.StoredFacts(env, s, l);
    var t := S.Send(env, s, l).0;
    var m := S.Envelope(env, s.messages, l);
    FindStays(t.messages, later, m.id);
    if S.Given(l.replyTo) && Find(s.messages, l.replyTo.value).Some? {
      FindAppend(s.messages, m, l.replyTo.value);
      FindStays(t.messages, later, l.replyTo.value);
    }
  }

  lemma ResendReply(env: Env, s: Ledger, again: S.Letter, stored: Message)
    requires S.Gate(s, again).None? && S.KnownPriority(again.priority)
    requires Find(s.messages, S.MessageId(again)) == Some(stored)
    requires S.SameLetter(stored, S.Envelope(env, s.messages, again))
    requires S.RecipientsOf(s.deliveries, S.MessageId(again)) == multiset(S.Valid(s, again))
    ensures S.Send(env, s, again) == (s, S.Resent(S.MessageId(again)))
  {
  }

  /** Whatever happened in between, repeating a stored call with its id, if it still passes the
      gates and resolves to the same recipients, answers that id and stores nothing. */
  lemma ResendIsHarmless(env: Env, states: seq<Ledger>, ops: seq<Op>, i: nat, j: nat, again: S.Letter)
    requires IsRun(env, states, ops) && i < |ops| && i < j < |states| && ops[i].Send?
    requires S.Send(env, states[i], ops[i].letter).1.Stored?
    requires SameCall(ops[i].letter, again, S.Send(env, states[i], ops[i].letter).1.id)
    requires S.Gate(states[j], again).None?
    requires multiset(S.Valid(states[j], again)) == multiset(S.Send(env, states[i], ops[i].letter).1.recipients)
    ensures S.Send(env, states[j], again) == (states[j], S.Resent(S.Send(env, states[i], ops[i].letter).1.id))
  {
    var l := ops[i].letter;
    assert StepAt(env, states, ops, i);
    EveryStateIsGood(env, states, ops, i);
    EveryStateIsGood(env, states, ops, j);
    StoredEnvelope(env, states[i], l);
    StoredRecipients(env, states[i], l);
    RecipientsAreForever(env, states, ops, i + 1, j, S.MessageId(l));
    EnvelopesAreForever(env, states, ops, i + 1, j);
    ThreadIsStable(env, states[i], l, states[j].messages, again);
    ResendReply(env, states[j], again, S.Envelope(env, states[i].messages, l));
  }

  /** The comparison does not look at the tac or the broadcast mark: any letter that differs from
      a recognised resend only there, and resolves to the same recipients, is also answered as
      already stored. */
  lemma ResendIgnoresTac(env: Env, s: Ledger, l: S.Letter, other: S.Letter)
    requires S.Send(env, s, l).1.Resent? && S.Gate(s, other).None?
    requires other == l.(tac := other.tac, broadcast := other.broadcast, listing := other.listing,
                         recipients := other.recipients, minted := other.minted)
    requires S.MessageId(other) == S.MessageId(l) && multiset(S.Valid(s, other)) == multiset(S.Valid(s, l))
    ensures S.Send(env, s, other) == S.Send(env, s, l)
  {
    var m := S.Envelope(env, s.messages, l);
    assert S.Thread(s.messages, other) == S.Thread(s.messages, l);
    assert S.Envelope(env, s.messages, other) == m.(tac := other.tac, broadcast := other.broadcast);
    ResendReply(env, s, other, Find(s.messages, m.id).value);
  }

  // ─── a closed tac ─────────────────────────────────────────────

  lemma StepKeepsTacs(env: Env, s: Ledger, op: Op, tac: string)
    requires Enabled(s, op) && tac in s.tacs
    ensures tac in Step(env, s, op).tacs
    ensures s.tacs[tac].closed.Some? ==> Step(env, s, op).tacs[tac].closed == s.tacs[tac].closed
  {
    EveryOpIsOne(op);
    if op.Send? {
      SendFrame(env, s, op);
    } else if MovesRows(op) {
      RowFrame(env, s, op);
    } else if IsNodeOp(op) {
      NodeFrame(env, s, op);
    } else if op.Register? {
      RegisterFrame(env, s, op);
    }
  }

  lemma ClosedTacTakesNoMail(env: Env, s: Ledger, op: Op, tac: string)
    requires tac != "" && tac in s.tacs && s.tacs[tac].closed.Some?
    ensures forall k :: |s.messages| <= k < |Step(env, s, op).messages|
                        ==> Step(env, s, op).messages[k].tac != Some(tac)
  {
    if op.Send? && S.Send(env, s, op.letter).1.Stored? {
      S.StoredFacts(env, s, op.letter);
    }
  }

  /** From the moment a tac is closed, its closing time, summary, closer and messages are fixed. */
  lemma {:induction false} ClosingIsFinal(env: Env, states: seq<Ledger>, ops: seq<Op>, tac: string, i: nat, j: nat)
    requires IsRun(env, states, ops) && i <= j < |states|
    requires tac in states[i].tacs && states[i].tacs[tac].closed.Some?
    ensures tac in states[j].tacs && states[j].tacs[tac].closed == states[i].tacs[tac].closed
    ensures states[i].messages <= states[j].messages
    ensures forall k :: |states[i].messages| <= k < |states[j].messages| ==> states[j].messages[k].tac != Some(tac)
  {
    if i < j {
      ClosingIsFinal(env, states, ops, tac, i, j - 1);
      EveryStateIsGood(env, states, ops, j - 1);
      assert StepAt(env, states, ops, j - 1);
      StepKeepsTacs(env, states[j - 1], ops[j - 1], tac);
      StepKeepsMessages(env, states[j - 1], ops[j - 1]);
      ClosedTacTakesNoMail(env, states[j - 1], ops[j - 1], tac);
    }
  }
}
