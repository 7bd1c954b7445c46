/** Claiming and reopening when other calls write between the rows of one call: the claims of
    `claim_new` share a transaction, but `reopen_unread` commits whenever it quarantines. */
module InterleavedClaims {
  import opened Tables
  import opened Deliveries
  import opened BusRuns
  import opened Claiming
  import opened DeliveryLife
  import M = MailHistory

  /** The call read its rows at step `from` of a run; the statement for row i, if it issues one, is
      step at[i], in this order. */
  ghost predicate Spread(env: Env, ops: seq<Op>, rows: seq<Row>, c: Caller, from: nat, at: seq<nat>) {
    && |at| == |rows|
    && (forall i :: 0 <= i < |at| ==> from <= at[i] < |ops|)
    && (forall i, j :: 0 <= i < j < |at| ==> at[i] < at[j])
    && forall i :: 0 <= i < |at| && Statement(env, rows[i], c).Some? ==> ops[at[i]] == Statement(env, rows[i], c).value
  }

  /** What the call shows, row by row, on the tables its statements meet. */
  function Page(env: Env, states: seq<Ledger>, rows: seq<Row>, c: Caller, at: seq<nat>): seq<Opened>
    requires |at| == |rows| && forall i :: 0 <= i < |at| ==> at[i] < |states|
  {
    if rows == [] then []
    else
      var n := |rows| - 1;
      Page(env, states, rows[..n], c, at[..n]) + Shown(env, states[at[n]].deliveries, rows[n], c)
  }

  lemma ColumnsStay(env: Env, states: seq<Ledger>, ops: seq<Op>, d: nat, i: nat, j: nat)
    requires IsRun(env, states, ops) && i <= j < |states| && Has(states[i], d)
    ensures Has(states[j], d)
    ensures states[j].deliveries[d].recipient == states[i].deliveries[d].recipient
            && states[j].deliveries[d].mid == states[i].deliveries[d].mid
  {
    if i < j {
      ColumnsStay(env, states, ops, d, i, j - 1);
      RowMoves(env, states, ops, d, j - 1);
      RowStepFacts(states[j - 1].deliveries[d], states[j].deliveries[d]);
    }
  }

  /** An answer of the query stays one for the rest of the run. */
  lemma AnswerStays(env: Env, states: seq<Ledger>, ops: seq<Op>, node: string, r: Row, i: nat, j: nat)
    requires IsRun(env, states, ops) && i <= j < |states| && IsAnswer(states[i].deliveries, states[i].messages, node, r)
    ensures IsAnswer(states[j].deliveries, states[j].messages, node, r)
  {
    ColumnsStay(env, states, ops, r.did - 1, i, j);
    M.RecipientsAreForever(env, states, ops, i, j, states[i].deliveries[r.did - 1].mid);
  }

  /** The row is now this caller's. */
  predicate IsHeld(s: Ledger, did: nat, c: Caller) {
    && 1 <= did <= |s.deliveries|
    && s.deliveries[did - 1].state.Claimed?
    && s.deliveries[did - 1].claimedBy == Some(c.claimant) && s.deliveries[did - 1].lease == Some(c.lease)
  }

  /** An entry is this node's own mail, its body comes from a valid envelope, and where the query
      saw the row ACCEPTED, the row's own step is a win that leaves it claimed for this caller. */
  ghost predicate Honest(env: Env, states: seq<Ledger>, ops: seq<Op>, node: string, r: Row, c: Caller, k: nat,
        o: Opened)
    requires k + 1 < |states|
  {
    && o.did == r.did && ShowsOwnMail(states[k + 1].deliveries, states[k + 1].messages, node, o)
    && (o.body.Some? <==> Bad(env, r.message, c.now).None?)
    && (o.body.Some? && r.state.Accepted?
        ==> o.state.Claimed? && WinsAt(states, ops, r.did - 1, k) && IsHeld(states[k + 1], r.did, c))
    && (!(o.body.Some? && r.state.Accepted?) ==> o.state == r.state)
  }

  lemma TakenIsHeld(env: Env, states: seq<Ledger>, ops: seq<Op>, r: Row, c: Caller, k: nat)
    requires IsRun(env, states, ops) && k < |ops| && TakesRow(env, states[k].deliveries, r, c)
    requires ops[k] == Claim(r.did, c.lease, c.claimant)
    ensures WinsAt(states, ops, r.did - 1, k) && IsHeld(states[k + 1], r.did, c)
  {
    assert StepAt(env, states, ops, k);
  }

  lemma ShownIsHonest(env: Env, states: seq<Ledger>, ops: seq<Op>, node: string, r: Row, c: Caller, from: nat, k: nat,
        o: Opened)
    requires IsRun(env, states, ops) && from <= k < |ops|
             && IsAnswer(states[from].deliveries, states[from].messages, node, r)
    requires Statement(env, r, c).Some? ==> ops[k] == Statement(env, r, c).value
    requires o in Shown(env, states[k].deliveries, r, c)
    ensures Honest(env, states, ops, node, r, c, k, o)
  {
    AnswerStays(env, states, ops, node, r, from, k + 1);
    if TakesRow(env, states[k].deliveries, r, c) { TakenIsHeld(env, states, ops, r, c, k); }
  }

  /** The row an entry was made from. */
  lemma {:induction false} EntryOf(env: Env, states: seq<Ledger>, rows: seq<Row>, c: Caller, at: seq<nat>, o: Opened)
      returns (i: nat)
    requires |at| == |rows| && forall i :: 0 <= i < |at| ==> at[i] < |states|
    requires o in Page(env, states, rows, c, at)
    ensures i < |rows| && o in Shown(env, states[at[i]].deliveries, rows[i], c)
  {
    var n := |rows| - 1;
    if o in Page(env, states, rows[..n], c, at[..n]) {
      i := EntryOf(env, states, rows[..n], c, at[..n], o);
    } else {
      i := n;
    }
  }

  /** Some row of the call accounts for the entry. */
  ghost predicate Accounted(env: Env, states: seq<Ledger>, ops: seq<Op>, node: string, rows: seq<Row>, c: Caller,
        at: seq<nat>, o: Opened)
    requires |at| == |rows| && |states| == |ops| + 1 && forall i :: 0 <= i < |at| ==> at[i] < |ops|
  {
    exists i :: 0 <= i < |rows| && Honest(env, states, ops, node, rows[i], c, at[i], o)
  }

  /** Whatever other calls write between the rows of one call, everything it shows is honest. */
  lemma EveryEntryIsHonest(env: Env, states: seq<Ledger>, ops: seq<Op>, node: string,
        rows: seq<Row>, c: Caller, from: nat, at: seq<nat>, o: Opened)
    requires IsRun(env, states, ops) && Spread(env, ops, rows, c, from, at)
    requires from < |states| && Answers(states[from].deliveries, states[from].messages, node, rows)
    requires o in Page(env, states, rows, c, at)
    ensures Accounted(env, states, ops, node, rows, c, at, o)
  {
    var i := EntryOf(env, states, rows, c, at, o);
    ShownIsHonest(env, states, ops, node, rows[i], c, from, at[i], o);
  }

  predicate ShowsRow(page: seq<Opened>, did: nat) {
    exists o :: o in page && o.did == did
  }

  /** And exactly those rows are missing that the query saw ACCEPTED and valid but that somebody
      else had moved before their own statement ran. */
  lemma {:induction false} OnlyTakenRowsAreMissing(env: Env, states: seq<Ledger>, ops: seq<Op>, rows: seq<Row>,
        c: Caller, from: nat, at: seq<nat>, i: nat)
    requires IsRun(env, states, ops) && Spread(env, ops, rows, c, from, at) && DistinctRows(rows) && i < |rows|
    ensures ShowsRow(Page(env, states, rows, c, at), rows[i].did) <==>
              !(rows[i].state.Accepted? && Bad(env, rows[i].message, c.now).None?
                && !StillAccepted(states[at[i]].deliveries, rows[i].did))
  {
    var n := |rows| - 1;
    var front, before := rows[..n], at[..n];
    if i < n {
      assert front[i] == rows[i] && before[i] == at[i];
      OnlyTakenRowsAreMissing(env, states, ops, front, c, from, before, i);
    } else {
      ShowsOnlyItsRows(env, states, front, c, before, rows[n].did);
    }
    PageGrows(env, states, rows, c, at, rows[i].did);
  }

  lemma {:induction false} ShowsOnlyItsRows(env: Env, states: seq<Ledger>, rows: seq<Row>, c: Caller, at: seq<nat>,
        did: nat)
    requires |at| == |rows| && (forall i :: 0 <= i < |at| ==> at[i] < |states|) && !Mentions(rows, did)
    ensures !ShowsRow(Page(env, states, rows, c, at), did)
  {
    if rows != [] {
      var n := |rows| - 1;
      assert forall i :: 0 <= i < n ==> rows[..n][i] == rows[i];
      ShowsOnlyItsRows(env, states, rows[..n], c, at[..n], did);
      PageGrows(env, states, rows, c, at, did);
    }
  }

  lemma PageGrows(env: Env, states: seq<Ledger>, rows: seq<Row>, c: Caller, at: seq<nat>, did: nat)
    requires rows != [] && |at| == |rows| && forall i :: 0 <= i < |at| ==> at[i] < |states|
    ensures var n := |rows| - 1;
            ShowsRow(Page(env, states, rows, c, at), did) <==>
              || ShowsRow(Page(env, states, rows[..n], c, at[..n]), did)
              || (did == rows[n].did && Shown(env, states[at[n]].deliveries, rows[n], c) != [])
  {
    var n := |rows| - 1;
    var early, last := Page(env, states, rows[..n], c, at[..n]), Shown(env, states[at[n]].deliveries, rows[n], c);
    assert Page(env, states, rows, c, at) == early + last;
    assert last != [] ==> last == [last[0]] && last[0].did == rows[n].did;
    assert forall o :: o in early + last <==> o in early || o in last;
    if last != [] { assert last[0] in early + last; }
  }
}
