/** What was sent is what is shown: the columns of a stored message, and the way from a letter to
    the mailbox it is opened in. */
module MailContents {
  import opened Tables
  import opened Deliveries
  import opened BusRuns
  import opened Claiming
  import opened DeliveryLife
  import opened InterleavedClaims
  import M = MailHistory
  import S = Sending

  // ─── one send ─────────────────────────────────────────────────

  /** The message is the letter, column by column; its digest is that of the letter's body. */
  predicate Carries(env: Env, m: Message, l: S.Letter) {
    && m.id == (if l.messageId.Some? && l.messageId.value != "" then l.messageId.value else l.minted)
    && m.sender == l.sender && m.subject == l.subject && m.body == l.body && m.bodyHash == env.hash(l.body)
    && m.replyTo == l.replyTo && m.schema == "tabus.v1" && m.expires == l.expires && m.priority == l.priority
    && m.tac == l.tac && m.broadcast == l.broadcast
  }

  /** The thread the letter names, else that of the message it answers, else one of its own. */
  predicate Threads(ms: seq<Message>, m: Message, l: S.Letter) {
    if l.threadId.Some? && l.threadId.value != "" then m.thread == l.threadId.value
    else if l.replyTo.Some? && exists i :: 0 <= i < |ms| && ms[i].id == l.replyTo.value
    then exists i :: 0 <= i < |ms| && ms[i].id == l.replyTo.value && m.thread == ms[i].thread
    else m.thread == m.id
  }

  /** A stored send adds one message, which is the letter. */
  lemma StoredIsTheLetter(env: Env, s: Ledger, l: S.Letter)
    requires S.WellFormed(s) && S.Send(env, s, l).1.Stored?
    ensures var t := S.Send(env, s, l).0;
            && |t.messages| == |s.messages| + 1 && t.messages[..|s.messages|] == s.messages
            && Carries(env, t.messages[|s.messages|], l) && Threads(s.messages, t.messages[|s.messages|], l)
            && S.Send(env, s, l).1.id == t.messages[|s.messages|].id
  {
    S.StoredFacts(env, s, l);
    if l.replyTo.Some? && l.replyTo.value != "" && Find(s.messages, l.replyTo.value).Some? {
      var i :| 0 <= i < |s.messages| && s.messages[i] == Find(s.messages, l.replyTo.value).value;
      assert s.messages[i].id == l.replyTo.value;
    }
  }

  // ─── every message was sent ───────────────────────────────────

  /** Step k is a send that added a message with this id. */
  predicate StoredAt(states: seq<Ledger>, ops: seq<Op>, k: nat, id: string) {
    && k < |ops| && k + 1 < |states| && ops[k].Send?
    && |states[k + 1].messages| == |states[k].messages| + 1 && states[k + 1].messages[|states[k].messages|].id == id
  }

  predicate AddsRow(s: Ledger, t: Ledger, id: string, node: string) {
    exists i :: |s.deliveries| <= i < |t.deliveries| && t.deliveries[i].recipient == node && t.deliveries[i].mid == id
  }

  predicate AddsOnly(s: Ledger, t: Ledger, id: string) {
    forall i :: |s.deliveries| <= i < |t.deliveries| ==> t.deliveries[i].mid == id
  }

  /** And a delivery of it to this node. */
  predicate SentTo(states: seq<Ledger>, ops: seq<Op>, k: nat, id: string, node: string) {
    StoredAt(states, ops, k, id) && AddsRow(states[k], states[k + 1], id, node)
  }

  lemma OnlyASendAdds(env: Env, s: Ledger, op: Op)
    requires S.WellFormed(s)
    ensures var t := Step(env, s, op);
            if op.Send? && S.Send(env, s, op.letter).1.Stored? then
              var n := |s.messages|;
              && |t.messages| == n + 1 && Carries(env, t.messages[n], op.letter)
              && |s.deliveries| <= |t.deliveries| && AddsOnly(s, t, t.messages[n].id)
            else |t.messages| == |s.messages| && |t.deliveries| == |s.deliveries|
  {
    if op.Send? {
      S.AllOrNothing(env, s, op.letter);
      if S.Send(env, s, op.letter).1.Stored? { StoredIsTheLetter(env, s, op.letter); }
    } else if MovesRows(op) {
      RowFrame(env, s, op);
    } else {
      OtherStepsLeaveMail(env, s, op);
    }
  }

  /** What one step of a run adds. */
  lemma Added(env: Env, states: seq<Ledger>, ops: seq<Op>, k: nat)
    requires IsRun(env, states, ops) && k < |ops|
    ensures |states[k].messages| <= |states[k + 1].messages| && |states[k].deliveries| <= |states[k + 1].deliveries|
    ensures var n := |states[k].messages|;
            if |states[k + 1].messages| > n then
              && StoredAt(states, ops, k, states[k + 1].messages[n].id)
              && Carries(env, states[k + 1].messages[n], ops[k].letter)
              && AddsOnly(states[k], states[k + 1], states[k + 1].messages[n].id)
            else |states[k + 1].deliveries| == |states[k].deliveries|
  {
    assert StepAt(env, states, ops, k);
    EveryStateIsGood(env, states, ops, k);
    OnlyASendAdds(env, states[k], ops[k]);
  }

  lemma SameIndex(env: Env, states: seq<Ledger>, ops: seq<Op>, k: nat, i: nat)
    requires IsRun(env, states, ops) && k < |ops| && i < |states[k].messages|
    ensures i < |states[k + 1].messages| && states[k + 1].messages[i] == states[k].messages[i]
  {
    M.EnvelopesAreForever(env, states, ops, k, k + 1);
  }

  /** Every message of a run is a letter that one step of it stored. */
  lemma {:induction false} EveryMessageWasSent(env: Env, states: seq<Ledger>, ops: seq<Op>, m: nat, i: nat)
      returns (k: nat)
    requires IsRun(env, states, ops) && m < |states| && i < |states[m].messages|
    ensures k < m && StoredAt(states, ops, k, states[m].messages[i].id)
    ensures Carries(env, states[m].messages[i], ops[k].letter)
  {
    Added(env, states, ops, m - 1);
    if i < |states[m - 1].messages| {
      k := EveryMessageWasSent(env, states, ops, m - 1, i);
      SameIndex(env, states, ops, m - 1, i);
    } else {
      k := m - 1;
    }
  }

  lemma StoredStays(env: Env, states: seq<Ledger>, ops: seq<Op>, k: nat, m: nat, id: string)
    requires IsRun(env, states, ops) && k < m < |states| && StoredAt(states, ops, k, id)
    ensures Find(states[m].messages, id) == Some(states[k + 1].messages[|states[k].messages|])
    ensures Carries(env, Find(states[m].messages, id).value, ops[k].letter)
  {
    var stored := states[k + 1].messages[|states[k].messages|];
    Added(env, states, ops, k);
    EveryStateIsGood(env, states, ops, k + 1);
    FindIs(states[k + 1].messages, stored);
    M.RecipientsAreForever(env, states, ops, k + 1, m, id);
  }

  lemma NewIdsAreNew(env: Env, states: seq<Ledger>, ops: seq<Op>, k: nat, id: string)
    requires IsRun(env, states, ops) && StoredAt(states, ops, k, id)
    ensures Find(states[k].messages, id).None?
  {
    var n := |states[k].messages|;
    EveryStateIsGood(env, states, ops, k + 1);
    forall i | 0 <= i < n ensures states[k].messages[i].id != id {
      SameIndex(env, states, ops, k, i);
      assert states[k + 1].messages[i].id != states[k + 1].messages[n].id;
    }
  }

  /** And only one. */
  lemma OneSending(env: Env, states: seq<Ledger>, ops: seq<Op>, j: nat, k: nat, id: string)
    requires IsRun(env, states, ops) && StoredAt(states, ops, j, id) && StoredAt(states, ops, k, id)
    ensures j == k
  {
    NewIdsAreNew(env, states, ops, j, id);
    NewIdsAreNew(env, states, ops, k, id);
    if j < k { StoredStays(env, states, ops, j, k, id); }
    if k < j { StoredStays(env, states, ops, k, j, id); }
  }

  // ─── and reaches who it was sent to ───────────────────────────

  /** Every delivery of a run was added by the step that stored its message. */
  lemma {:induction false} EveryDeliveryWasSent(env: Env, states: seq<Ledger>, ops: seq<Op>, m: nat, i: nat)
      returns (k: nat)
    requires IsRun(env, states, ops) && m < |states| && i < |states[m].deliveries|
    ensures k < m && SentTo(states, ops, k, states[m].deliveries[i].mid, states[m].deliveries[i].recipient)
  {
    Added(env, states, ops, m - 1);
    if i < |states[m - 1].deliveries| {
      k := EveryDeliveryWasSent(env, states, ops, m - 1, i);
      ColumnsStay(env, states, ops, i, m - 1, m);
    } else {
      k := m - 1;
      assert AddsOnly(states[k], states[k + 1], states[k + 1].messages[|states[k].messages|].id);
      assert AddsRow(states[k], states[k + 1], states[m].deliveries[i].mid, states[m].deliveries[i].recipient);
    }
  }

  /** A delivery is of the letter that some earlier step stored for this very node. */
  lemma DeliveredWasSent(env: Env, states: seq<Ledger>, ops: seq<Op>, m: nat, did: nat) returns (k: nat)
    requires IsRun(env, states, ops) && m < |states| && 1 <= did <= |states[m].deliveries|
    ensures var d := states[m].deliveries[did - 1];
            && k < m && SentTo(states, ops, k, d.mid, d.recipient) && Find(states[m].messages, d.mid).Some?
            && Carries(env, Find(states[m].messages, d.mid).value, ops[k].letter)
  {
    k := EveryDeliveryWasSent(env, states, ops, m, did - 1);
    StoredStays(env, states, ops, k, m, states[m].deliveries[did - 1].mid);
  }

  /** Whatever a claim hands out is such a letter. */
  lemma ClaimedWasSent(env: Env, states: seq<Ledger>, ops: seq<Op>, m: nat, node: string, rows: seq<Row>, c: Caller,
        r: Row)
      returns (k: nat)
    requires IsRun(env, states, ops) && m < |states|
    requires Answers(states[m].deliveries, states[m].messages, node, rows)
             && r in Won(env, states[m].deliveries, rows, c)
    ensures k < m && SentTo(states, ops, k, r.message.id, node) && Carries(env, r.message, ops[k].letter)
  {
    WonExactly(env, states[m].deliveries, rows, c, r);
    k := ListedWasSent(env, states, ops, m, node, rows, r);
  }

  lemma ListedWasSent(env: Env, states: seq<Ledger>, ops: seq<Op>, m: nat, node: string, rows: seq<Row>, r: Row)
      returns (k: nat)
    requires IsRun(env, states, ops) && m < |states|
    requires Answers(states[m].deliveries, states[m].messages, node, rows) && r in rows
    ensures k < m && SentTo(states, ops, k, r.message.id, node) && Carries(env, r.message, ops[k].letter)
  {
    ListedAnswers(states[m].deliveries, states[m].messages, node, rows, r);
    k := DeliveredWasSent(env, states, ops, m, r.did);
  }

  /** And a body that a reopening shows is that of such a letter. */
  lemma ShownWasSent(env: Env, states: seq<Ledger>, ops: seq<Op>, m: nat, node: string, o: Opened) returns (k: nat)
    requires IsRun(env, states, ops) && m < |states|
    requires ShowsOwnMail(states[m].deliveries, states[m].messages, node, o) && o.body.Some?
    ensures k < m && SentTo(states, ops, k, states[m].deliveries[o.did - 1].mid, node)
    ensures o.body.value == ops[k].letter.body
  {
    k := DeliveredWasSent(env, states, ops, m, o.did);
  }

  lemma EntryIsOwnMail(env: Env, states: seq<Ledger>, ops: seq<Op>, node: string, rows: seq<Row>, c: Caller, from: nat,
        at: seq<nat>, o: Opened)
      returns (m: nat)
    requires IsRun(env, states, ops) && Spread(env, ops, rows, c, from, at)
    requires from < |states| && Answers(states[from].deliveries, states[from].messages, node, rows)
    requires o in Page(env, states, rows, c, at)
    ensures m < |states| && ShowsOwnMail(states[m].deliveries, states[m].messages, node, o)
  {
    var i := EntryOf(env, states, rows, c, at, o);
    ShownIsHonest(env, states, ops, node, rows[i], c, from, at[i], o);
    m := at[i] + 1;
  }

  /** However other calls write between its rows, every body a call shows is the body of the letter
      that an earlier step stored for this node. */
  lemma PageWasSent(env: Env, states: seq<Ledger>, ops: seq<Op>, node: string, rows: seq<Row>, c: Caller, from: nat,
        at: seq<nat>, o: Opened)
      returns (k: nat, id: string)
    requires IsRun(env, states, ops) && Spread(env, ops, rows, c, from, at)
    requires from < |states| && Answers(states[from].deliveries, states[from].messages, node, rows)
    requires o in Page(env, states, rows, c, at) && o.body.Some?
    ensures k < |ops| && SentTo(states, ops, k, id, node) && o.body.value == ops[k].letter.body
  {
    var m := EntryIsOwnMail(env, states, ops, node, rows, c, from, at, o);
    id := states[m].deliveries[o.did - 1].mid;
    k := ShownWasSent(env, states, ops, m, node, o);
  }

  // ─── which envelopes pass ─────────────────────────────────────

  /** The known schema, the digest of its body, and no expiry or one that is not over. */
  predicate Passes(env: Env, m: Message, now: int) {
    m.schema == "tabus.v1" && m.bodyHash == env.hash(m.body) && Lasts(m.expires, now)
  }

  predicate Lasts(e: Expiry, now: int) {
    match e
    case NoExpiry => true
    case EmptyExpiry => true
    case Malformed => false
    case At(time) => now <= time
  }

  /** A claim hands out exactly the rows that pass and are still ACCEPTED; what does not pass and is
      still ACCEPTED it quarantines, and reports. */
  lemma ClaimedExactly(env: Env, ds: seq<Delivery>, rows: seq<Row>, c: Caller, r: Row)
    requires DistinctRows(rows) && r in rows && r.state.Accepted?
    ensures r in Won(env, ds, rows, c) <==> Passes(env, r.message, c.now) && StillAccepted(ds, r.did)
    ensures r in Lost(env, ds, rows, c) <==> Passes(env, r.message, c.now) && !StillAccepted(ds, r.did)
    ensures r in Sealed(env, rows, c) <==> !Passes(env, r.message, c.now)
    ensures StillAccepted(ds, r.did) ==>
              Settle(env, ds, rows, c)[r.did - 1].state ==
                  if Passes(env, r.message, c.now) then Claimed else Quarantined
  {
    WonExactly(env, ds, rows, c, r);
    LostExactly(env, ds, rows, c, r);
    SealedExactly(env, rows, c, r);
    if StillAccepted(ds, r.did) {
      var i :| 0 <= i < |rows| && rows[i] == r;
      SettleMoves(env, ds, rows, c, i);
    }
  }

  /** A row is shown with its body exactly when it passes and, if the query saw it ACCEPTED, is
      still so at its own statement; without it exactly when it does not pass. */
  lemma ShownExactly(env: Env, ds: seq<Delivery>, r: Row, c: Caller)
    ensures Opened(r.did, if r.state.Accepted? then Claimed else r.state, Some(r.message.body)) in Shown(env, ds, r, c)
            <==> Passes(env, r.message, c.now) && (r.state.Accepted? ==> StillAccepted(ds, r.did))
    ensures Opened(r.did, r.state, None) in Shown(env, ds, r, c) <==> !Passes(env, r.message, c.now)
    ensures |Shown(env, ds, r, c)| <= 1
  {
  }

  /** A message of a run passes until the expiry its letter named, whatever came between. */
  lemma SentMailPasses(env: Env, states: seq<Ledger>, ops: seq<Op>, m: nat, i: nat, now: int) returns (k: nat)
    requires IsRun(env, states, ops) && m < |states| && i < |states[m].messages|
    ensures k < m && StoredAt(states, ops, k, states[m].messages[i].id)
    ensures Passes(env, states[m].messages[i], now) <==> Lasts(ops[k].letter.expires, now)
  {
    k := EveryMessageWasSent(env, states, ops, m, i);
  }

  /** So in every run a row that is still ACCEPTED is handed out exactly until that expiry. */
  lemma HandedOutUntilExpiry(env: Env, states: seq<Ledger>, ops: seq<Op>, m: nat, node: string, rows: seq<Row>,
        c: Caller, r: Row)
      returns (k: nat)
    requires IsRun(env, states, ops) && m < |states| && Answers(states[m].deliveries, states[m].messages, node, rows)
    requires r in rows && r.state.Accepted? && StillAccepted(states[m].deliveries, r.did)
    ensures k < m && SentTo(states, ops, k, r.message.id, node)
    ensures r in Won(env, states[m].deliveries, rows, c) <==> Lasts(ops[k].letter.expires, c.now)
  {
    k := ListedWasSent(env, states, ops, m, node, rows, r);
    ClaimedExactly(env, states[m].deliveries, rows, c, r);
  }

  /** An entry of this row with its body. */
  predicate ShowsBody(page: seq<Opened>, did: nat) {
    exists o :: o in page && o.did == did && o.body.Some?
  }

  lemma {:induction false} RowIsOnThePage(env: Env, states: seq<Ledger>, rows: seq<Row>, c: Caller, at: seq<nat>,
        i: nat)
    requires |at| == |rows| && (forall i :: 0 <= i < |at| ==> at[i] < |states|) && i < |rows|
    ensures forall o :: o in Shown(env, states[at[i]].deliveries, rows[i], c) ==> o in Page(env, states, rows, c, at)
  {
    if i < |rows| - 1 { RowIsOnThePage(env, states, rows[..|rows| - 1], c, at[..|rows| - 1], i); }
  }

  lemma PageShowsExactly(env: Env, states: seq<Ledger>, rows: seq<Row>, c: Caller, at: seq<nat>, i: nat)
    requires |at| == |rows| && (forall i :: 0 <= i < |at| ==> at[i] < |states|) && i < |rows| && DistinctRows(rows)
    ensures ShowsBody(Page(env, states, rows, c, at), rows[i].did) <==>
              && Passes(env, rows[i].message, c.now)
              && (rows[i].state.Accepted? ==> StillAccepted(states[at[i]].deliveries, rows[i].did))
  {
    var page, did := Page(env, states, rows, c, at), rows[i].did;
    ShownExactly(env, states[at[i]].deliveries, rows[i], c);
    RowIsOnThePage(env, states, rows, c, at, i);
    if ShowsBody(page, did) {
      var o :| o in page && o.did == did && o.body.Some?;
      var j := EntryOf(env, states, rows, c, at, o);
      ShownExactly(env, states[at[j]].deliveries, rows[j], c);
    }
  }

  /** And however other calls write between its rows, a call shows the body of a row exactly until
      the expiry of its letter, if a row it saw ACCEPTED is still so at its own statement. */
  lemma PageShowsUntilExpiry(env: Env, states: seq<Ledger>, ops: seq<Op>, node: string, rows: seq<Row>, c: Caller,
        from: nat, at: seq<nat>, i: nat)
      returns (k: nat)
    requires IsRun(env, states, ops) && Spread(env, ops, rows, c, from, at) && DistinctRows(rows) && i < |rows|
    requires from < |states| && Answers(states[from].deliveries, states[from].messages, node, rows)
    ensures k < from && SentTo(states, ops, k, rows[i].message.id, node)
    ensures ShowsBody(Page(env, states, rows, c, at), rows[i].did) <==>
              && Lasts(ops[k].letter.expires, c.now)
              && (rows[i].state.Accepted? ==> StillAccepted(states[at[i]].deliveries, rows[i].did))
  {
    k := ListedWasSent(env, states, ops, from, node, rows, rows[i]);
    PageShowsExactly(env, states, rows, c, at, i);
  }
}
