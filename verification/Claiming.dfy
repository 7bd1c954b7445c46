/** What `claim_new` and `reopen_unread` do with a snapshot of rows, however old it is. */
module Claiming {
  import opened Tables
  import opened Deliveries
  import opened BusRuns
  import S = Sending

  /** One row of the snapshot query: the delivery as it was then, and its message. */
  datatype Row = Row(did: nat, state: DeliveryState, message: Message)

  datatype Problem = UnknownSchema | Expired | NoTimestamp | HashMismatch

  /** `_validate_envelope`: the first problem, or nothing. */
  function Bad(env: Env, m: Message, now: int): Option<Problem> {
    if m.schema != PROTOCOL_VERSION then Some(UnknownSchema)
    else if m.expires.Malformed? then Some(NoTimestamp)
    else if m.expires.At? && m.expires.time < now then Some(Expired)
    else if env.hash(m.body) != m.bodyHash then Some(HashMismatch)
    else None
  }

  /** The caller of one of the two functions. */
  datatype Caller = Caller(claimant: string, lease: int, now: int)

  /** The statement issued for one row: only a row the snapshot saw as ACCEPTED is updated. */
  function Statement(env: Env, r: Row, c: Caller): Option<Op> {
    if !r.state.Accepted? then None
    else if Bad(env, r.message, c.now).Some? then Some(Quarantine(r.did))
    else Some(Claim(r.did, c.lease, c.claimant))
  }

  function Apply(env: Env, ds: seq<Delivery>, r: Row, c: Caller): (es: seq<Delivery>)
    ensures |es| == |ds|
  {
    match Statement(env, r, c)
    case Some(Quarantine(did)) => Deliveries.Quarantine(ds, did)
    case Some(Claim(did, lease, who)) => Deliveries.Claim(ds, did, lease, who)
    case _ => ds
  }

  /** The table after the statements for all these rows. */
  function Settle(env: Env, ds: seq<Delivery>, rows: seq<Row>, c: Caller): (es: seq<Delivery>)
    ensures |es| == |ds|
  {
    if rows == [] then ds
    else Apply(env, Settle(env, ds, rows[..|rows| - 1], c), rows[|rows| - 1], c)
  }

  predicate StillAccepted(ds: seq<Delivery>, did: nat) {
    1 <= did <= |ds| && ds[did - 1].state.Accepted?
  }

  /** rowcount of the conditional claim for this row, on the table it meets. */
  predicate TakesRow(env: Env, ds: seq<Delivery>, r: Row, c: Caller) {
    r.state.Accepted? && Bad(env, r.message, c.now).None? && StillAccepted(ds, r.did)
  }

  /** The same for the last of these rows, after the others. */
  predicate WinsLast(env: Env, ds: seq<Delivery>, rows: seq<Row>, c: Caller)
    requires rows != []
  {
    TakesRow(env, Settle(env, ds, rows[..|rows| - 1], c), rows[|rows| - 1], c)
  }

  /** The rows this caller takes. */
  function Won(env: Env, ds: seq<Delivery>, rows: seq<Row>, c: Caller): seq<Row> {
    if rows == [] then []
    else Won(env, ds, rows[..|rows| - 1], c) + if WinsLast(env, ds, rows, c) then [rows[|rows| - 1]] else []
  }

  function Sealed(env: Env, rows: seq<Row>, c: Caller): seq<Row> {
    if rows == [] then []
    else Sealed(env, rows[..|rows| - 1], c)
         + if Bad(env, rows[|rows| - 1].message, c.now).Some? then [rows[|rows| - 1]] else []
  }

  /** The rows somebody else took first. */
  function Lost(env: Env, ds: seq<Delivery>, rows: seq<Row>, c: Caller): seq<Row> {
    if rows == [] then []
    else Lost(env, ds, rows[..|rows| - 1], c)
         + if Bad(env, rows[|rows| - 1].message, c.now).None?
         && !WinsLast(env, ds, rows, c) then [rows[|rows| - 1]] else []
  }

  /** What reopening shows for one row: no body when the envelope is bad. */
  datatype Opened = Opened(did: nat, state: DeliveryState, body: Option<string>)

  /** A row is shown as the snapshot had it, except that an ACCEPTED row is shown only after this
      caller has claimed it; `ds` is the table its statement meets. */
  function Shown(env: Env, ds: seq<Delivery>, r: Row, c: Caller): seq<Opened> {
    if Bad(env, r.message, c.now).Some? then [Opened(r.did, r.state, None)]
    else if !r.state.Accepted? then [Opened(r.did, r.state, Some(r.message.body))]
    else if TakesRow(env, ds, r, c) then [Opened(r.did, Claimed, Some(r.message.body))]
    else []
  }

  /** What an undisturbed call shows. */
  function OpenedOf(env: Env, ds: seq<Delivery>, rows: seq<Row>, c: Caller): seq<Opened> {
    if rows == [] then []
    else
      var front := rows[..|rows| - 1];
      OpenedOf(env, ds, front, c) + Shown(env, Settle(env, ds, front, c), rows[|rows| - 1], c)
  }

  /** One more row of an undisturbed call. */
  lemma OneMoreRow(env: Env, ds: seq<Delivery>, rows: seq<Row>, c: Caller, i: nat)
    requires i < |rows|
    ensures var before := Settle(env, ds, rows[..i], c);
            && Settle(env, ds, rows[..i + 1], c) == Apply(env, before, rows[i], c)
            && OpenedOf(env, ds, rows[..i + 1], c) == OpenedOf(env, ds, rows[..i], c) + Shown(env, before, rows[i], c)
  {
    assert rows[..i + 1][..i] == rows[..i];
  }

  /** Row k was shown with its body and filled the page. */
  predicate FillsPage(env: Env, ds: seq<Delivery>, rows: seq<Row>, c: Caller, k: nat, limit: int)
    requires k < |rows|
  {
    && Bad(env, rows[k].message, c.now).None?
    && |OpenedOf(env, ds, rows[..k + 1], c)| > |OpenedOf(env, ds, rows[..k], c)|
    && |OpenedOf(env, ds, rows[..k + 1], c)| >= limit
  }

  /** None of the first n rows fills the page. */
  predicate Unfilled(env: Env, ds: seq<Delivery>, rows: seq<Row>, c: Caller, n: nat, limit: int)
    requires n <= |rows|
  {
    n > 0 ==> Unfilled(env, ds, rows, c, n - 1, limit) && !FillsPage(env, ds, rows, c, n - 1, limit)
  }

  /** The loop looks at exactly these rows: all, or those up to the first that fills the page. */
  predicate StopsAfter(env: Env, ds: seq<Delivery>, rows: seq<Row>, c: Caller, seen: nat, limit: int) {
    && seen <= |rows|
    && Unfilled(env, ds, rows, c, if seen == 0 then 0 else seen - 1, limit)
    && (seen < |rows| ==> seen > 0 && FillsPage(env, ds, rows, c, seen - 1, limit))
  }

  /** The loop after one more row: the table, what is shown, and whether to stop. */
  lemma LoopOnce(env: Env, ds: seq<Delivery>, rows: seq<Row>, c: Caller, i: nat, limit: int, es: seq<Delivery>,
        out: seq<Opened>, shown: seq<Opened>)
    requires i < |rows| && es == Settle(env, ds, rows[..i], c) && out == OpenedOf(env, ds, rows[..i], c)
    requires shown == Shown(env, es, rows[i], c)
    ensures Apply(env, es, rows[i], c) == Settle(env, ds, rows[..i + 1], c)
    ensures out + shown == OpenedOf(env, ds, rows[..i + 1], c)
    ensures FillsPage(env, ds, rows, c, i, limit)
            <==> shown != [] && Bad(env, rows[i].message, c.now).None? && |out + shown| >= limit
  {
    OneMoreRow(env, ds, rows, c, i);
  }

  /** With a limit that is not negative the query's own LIMIT already bounds the page, so the loop's
      check never cuts a listing short: only the last row can fill it. A negative limit leaves the
      query unbounded, and then the check stops the loop at the first body shown. */
  lemma {:induction false} PageNeverCut(env: Env, ds: seq<Delivery>, rows: seq<Row>, c: Caller, k: nat, limit: int)
    requires k <= |rows|
    ensures |OpenedOf(env, ds, rows[..k], c)| <= k
    ensures |rows| <= limit && k + 1 < |rows| ==> !FillsPage(env, ds, rows, c, k, limit)
    ensures limit < 0 && k < |rows| ==>
              (FillsPage(env, ds, rows, c, k, limit) <==>
                 Bad(env, rows[k].message, c.now).None?
                 && (rows[k].state.Accepted? ==> WinsLast(env, ds, rows[..k + 1], c)))
  {
    if k > 0 {
      PageNeverCut(env, ds, rows, c, k - 1, limit);
      assert rows[..k][..k - 1] == rows[..k - 1];
    }
    if k < |rows| { assert rows[..k + 1][..k] == rows[..k]; }
  }

  ghost predicate DistinctRows(rows: seq<Row>) {
    forall i, j :: 0 <= i < j < |rows| ==> rows[i].did != rows[j].did
  }

  ghost predicate Mentions(rows: seq<Row>, did: nat) {
    exists i :: 0 <= i < |rows| && rows[i].did == did
  }

  lemma {:induction false} SettleLeaves(env: Env, ds: seq<Delivery>, rows: seq<Row>, c: Caller, k: nat)
    requires k < |ds| && !Mentions(rows, k + 1)
    ensures Settle(env, ds, rows, c)[k] == ds[k]
  {
    if rows != [] {
      var front := rows[..|rows| - 1];
      assert forall i :: 0 <= i < |front| ==> front[i] == rows[i];
      SettleLeaves(env, ds, front, c, k);
    }
  }

  /** A row is settled exactly once, by its own statement on the row as it is now. */
  lemma {:induction false} SettleMoves(env: Env, ds: seq<Delivery>, rows: seq<Row>, c: Caller, i: nat)
    requires DistinctRows(rows) && i < |rows| && 1 <= rows[i].did <= |ds|
    ensures var k := rows[i].did - 1;
            Settle(env, ds, rows, c)[k] ==
              if !rows[i].state.Accepted? then ds[k]
              else if Bad(env, rows[i].message, c.now).Some? then QuarantineRow(ds[k])
              else ClaimRow(ds[k], c.lease, c.claimant)
  {
    var front := rows[..|rows| - 1];
    if i < |front| {
      assert front[i] == rows[i];
      SettleMoves(env, ds, front, c, i);
    } else {
      assert !Mentions(front, rows[i].did);
      SettleLeaves(env, ds, front, c, rows[i].did - 1);
    }
  }

  /** What decides the last row's win is the row as it was before this call. */
  lemma LastWins(env: Env, ds: seq<Delivery>, rows: seq<Row>, c: Caller)
    requires rows != [] && DistinctRows(rows)
    ensures var r := rows[|rows| - 1];
            WinsLast(env, ds, rows, c) <==>
              r.state.Accepted? && Bad(env, r.message, c.now).None? && StillAccepted(ds, r.did)
  {
    var front, last := rows[..|rows| - 1], rows[|rows| - 1];
    if 1 <= last.did <= |ds| {
      assert forall i :: 0 <= i < |front| ==> front[i] == rows[i];
      SettleLeaves(env, ds, front, c, last.did - 1);
    }
  }

  /** Winning is decided by the row as it is now, not by the snapshot: exactly the listed rows
      that pass validation and are still ACCEPTED are handed out. */
  lemma {:induction false} WonExactly(env: Env, ds: seq<Delivery>, rows: seq<Row>, c: Caller, r: Row)
    requires DistinctRows(rows)
    ensures r in Won(env, ds, rows, c) <==>
              r in rows && r.state.Accepted? && Bad(env, r.message, c.now).None? && StillAccepted(ds, r.did)
  {
    if rows != [] {
      var front, last := rows[..|rows| - 1], rows[|rows| - 1];
      WonExactly(env, ds, front, c, r);
      LastWins(env, ds, rows, c);
      assert r in rows <==> r in front || r == last by {
        assert rows == front + [last];
      }
    }
  }

  /** Each row handed out is afterwards CLAIMED by this caller, with one more attempt. */
  lemma WonIsClaimed(env: Env, ds: seq<Delivery>, rows: seq<Row>, c: Caller, r: Row)
    requires DistinctRows(rows) && r in Won(env, ds, rows, c)
    ensures r in rows && 1 <= r.did <= |ds| && ds[r.did - 1].state.Accepted?
    ensures Settle(env, ds, rows, c)[r.did - 1] ==
              ds[r.did - 1].(state := Claimed, lease := Some(c.lease), claimedBy := Some(c.claimant),
                  attempts := ds[r.did - 1].attempts + 1)
  {
    WonExactly(env, ds, rows, c, r);
    var i :| 0 <= i < |rows| && rows[i] == r;
    SettleMoves(env, ds, rows, c, i);
  }

  lemma {:induction false} SealedExactly(env: Env, rows: seq<Row>, c: Caller, r: Row)
    ensures r in Sealed(env, rows, c) <==> r in rows && Bad(env, r.message, c.now).Some?
  {
    if rows != [] {
      SealedExactly(env, rows[..|rows| - 1], c, r);
      assert rows == rows[..|rows| - 1] + [rows[|rows| - 1]];
    }
  }

  lemma {:induction false} LostExactly(env: Env, ds: seq<Delivery>, rows: seq<Row>, c: Caller, r: Row)
    requires DistinctRows(rows) && r in rows && r.state.Accepted?
    ensures r in Lost(env, ds, rows, c) <==> Bad(env, r.message, c.now).None? && !StillAccepted(ds, r.did)
  {
    var front, last := rows[..|rows| - 1], rows[|rows| - 1];
    LastWins(env, ds, rows, c);
    assert rows == front + [last];
    if r in front {
      LostExactly(env, ds, front, c, r);
      assert r != last by { var i :| 0 <= i < |front| && front[i] == r; assert rows[i].did != rows[|front|].did; }
    } else {
      LostAmong(env, ds, front, c, r);
    }
  }

  lemma {:induction false} LostAmong(env: Env, ds: seq<Delivery>, rows: seq<Row>, c: Caller, r: Row)
    ensures r in Lost(env, ds, rows, c) ==> r in rows
  {
    if rows != [] { LostAmong(env, ds, rows[..|rows| - 1], c, r); }
  }

  /** A reopened body always comes from a valid envelope, and a row the snapshot saw as ACCEPTED
      is shown only if this caller won it. */
  lemma {:induction false} OpenedSafely(env: Env, ds: seq<Delivery>, rows: seq<Row>, c: Caller, o: Opened)
    requires DistinctRows(rows) && o in OpenedOf(env, ds, rows, c) && o.body.Some?
    ensures exists r :: r in rows && r.did == o.did && o.body == Some(r.message.body)
                        && Bad(env, r.message, c.now).None?
                        && (if r.state.Accepted? then o.state.Claimed?
                                                      && r in Won(env, ds, rows, c) else o.state == r.state)
  {
    var front, last := rows[..|rows| - 1], rows[|rows| - 1];
    assert rows == front + [last];
    if o in OpenedOf(env, ds, front, c) {
      OpenedSafely(env, ds, front, c, o);
      var r :| r in front && r.did == o.did && o.body == Some(r.message.body) && Bad(env, r.message, c.now).None?
               && (if r.state.Accepted? then o.state.Claimed? && r in Won(env, ds, front, c) else o.state == r.state);
      assert r in rows;
    } else {
      assert last in rows;
    }
  }

  // ─── only one's own mail ──────────────────────────────────────

  /** What the query joins for one row; recipient and message of a delivery never change, so it
      makes no difference at which moment they are looked up. */
  predicate IsAnswer(ds: seq<Delivery>, ms: seq<Message>, node: string, r: Row) {
    1 <= r.did <= |ds| && ds[r.did - 1].recipient == node && Find(ms, ds[r.did - 1].mid) == Some(r.message)
  }

  /** The rows answer the query for this node. */
  ghost predicate Answers(ds: seq<Delivery>, ms: seq<Message>, node: string, rows: seq<Row>) {
    DistinctRows(rows) && forall i :: 0 <= i < |rows| ==> IsAnswer(ds, ms, node, rows[i])
  }

  lemma ResetKeepsAnswers(ds: seq<Delivery>, ms: seq<Message>, node: string, rows: seq<Row>, now: int)
    requires Answers(ds, ms, node, rows)
    ensures Answers(Deliveries.Reset(ds, node, now), ms, node, rows)
  {
  }

  /** A call changes no other node's rows. */
  lemma SettleLeavesOthers(env: Env, ds: seq<Delivery>, ms: seq<Message>, node: string, rows: seq<Row>, c: Caller)
    requires Answers(ds, ms, node, rows)
    ensures forall k :: 0 <= k < |ds| && ds[k].recipient != node ==> Settle(env, ds, rows, c)[k] == ds[k]
  {
    forall k | 0 <= k < |ds| && ds[k].recipient != node ensures Settle(env, ds, rows, c)[k] == ds[k] {
      assert !Mentions(rows, k + 1);
      SettleLeaves(env, ds, rows, c, k);
    }
  }

  /** Everything handed out is this node's mail, now claimed for this caller, with its own message. */
  lemma WonIsOwnMail(env: Env, ds: seq<Delivery>, ms: seq<Message>, node: string, rows: seq<Row>, c: Caller, r: Row)
    requires Answers(ds, ms, node, rows) && r in Won(env, ds, rows, c)
    ensures IsAnswer(Settle(env, ds, rows, c), ms, node, r)
    ensures var d := Settle(env, ds, rows, c)[r.did - 1];
            d.state.Claimed? && d.claimedBy == Some(c.claimant) && d.lease == Some(c.lease)
  {
    WonIsClaimed(env, ds, rows, c, r);
    ListedAnswers(ds, ms, node, rows, r);
    ClaimedAnswers(ds, Settle(env, ds, rows, c), ms, node, r);
  }

  lemma ListedAnswers(ds: seq<Delivery>, ms: seq<Message>, node: string, rows: seq<Row>, r: Row)
    requires Answers(ds, ms, node, rows) && r in rows
    ensures IsAnswer(ds, ms, node, r)
  {
    var i :| 0 <= i < |rows| && rows[i] == r;
    assert IsAnswer(ds, ms, node, rows[i]);
  }

  lemma ClaimedAnswers(ds: seq<Delivery>, es: seq<Delivery>, ms: seq<Message>, node: string, r: Row)
    requires IsAnswer(ds, ms, node, r) && |es| == |ds|
    requires es[r.did - 1].recipient == ds[r.did - 1].recipient && es[r.did - 1].mid == ds[r.did - 1].mid
    ensures IsAnswer(es, ms, node, r)
  {
  }

  /** The row an entry was made from. */
  lemma {:induction false} OpenedFrom(env: Env, ds: seq<Delivery>, rows: seq<Row>, c: Caller, o: Opened)
      returns (i: nat)
    requires o in OpenedOf(env, ds, rows, c)
    ensures i < |rows| && rows[i].did == o.did && (o.body.Some? ==> o.body.value == rows[i].message.body)
  {
    var front := rows[..|rows| - 1];
    if o in OpenedOf(env, ds, front, c) {
      i := OpenedFrom(env, ds, front, c, o);
    } else {
      i := |rows| - 1;
    }
  }

  /** A reopened entry is of this node's mail, and a body shown is that of its own message. */
  predicate ShowsOwnMail(ds: seq<Delivery>, ms: seq<Message>, node: string, o: Opened) {
    && 1 <= o.did <= |ds| && ds[o.did - 1].recipient == node && Find(ms, ds[o.did - 1].mid).Some?
    && (o.body.Some? ==> o.body.value == Find(ms, ds[o.did - 1].mid).value.body)
  }

  lemma OpenedIsOwnMail(env: Env, ds: seq<Delivery>, ms: seq<Message>, node: string, rows: seq<Row>, c: Caller,
        o: Opened)
    requires Answers(ds, ms, node, rows) && o in OpenedOf(env, ds, rows, c)
    ensures ShowsOwnMail(ds, ms, node, o)
  {
    var i := OpenedFrom(env, ds, rows, c, o);
    assert IsAnswer(ds, ms, node, rows[i]);
  }

  // ─── every call is made of bus steps ──────────────────────────

  /** The ledger after some steps. */
  function Exec(env: Env, s: Ledger, ops: seq<Op>): Ledger {
    if ops == [] then s else Step(env, Exec(env, s, ops[..|ops| - 1]), ops[|ops| - 1])
  }

  function StatementsOf(env: Env, rows: seq<Row>, c: Caller): (ops: seq<Op>)
    ensures forall op :: op in ops ==> MovesRows(op)
  {
    if rows == [] then []
    else StatementsOf(env, rows[..|rows| - 1], c)
         + if Statement(env, rows[|rows| - 1], c).Some? then [Statement(env, rows[|rows| - 1], c).value] else []
  }

  lemma {:induction false} SettleIsRun(env: Env, s: Ledger, rows: seq<Row>, c: Caller)
    ensures Exec(env, s, StatementsOf(env, rows, c)) == s.(deliveries := Settle(env, s.deliveries, rows, c))
  {
    if rows != [] {
      var front, last := rows[..|rows| - 1], rows[|rows| - 1];
      SettleIsRun(env, s, front, c);
      var st, ops := Statement(env, last, c), StatementsOf(env, front, c);
      if st.Some? {
        assert (ops + [st.value])[..|ops|] == ops;
        StatementIsStep(env, s.(deliveries := Settle(env, s.deliveries, front, c)), last, c);
      } else {
        assert ops + [] == ops;
      }
    }
  }

  lemma StatementIsStep(env: Env, s: Ledger, r: Row, c: Caller)
    requires Statement(env, r, c).Some?
    ensures Step(env, s, Statement(env, r, c).value) == s.(deliveries := Apply(env, s.deliveries, r, c))
  {
  }

  lemma {:induction false} ExecKeepsInv(env: Env, s: Ledger, ops: seq<Op>)
    requires Inv(env, s) && forall op :: op in ops ==> MovesRows(op)
    ensures Inv(env, Exec(env, s, ops))
  {
    if ops != [] {
      ExecKeepsInv(env, s, ops[..|ops| - 1]);
      assert ops[|ops| - 1] in ops;
      StepKeepsInv(env, Exec(env, s, ops[..|ops| - 1]), ops[|ops| - 1]);
    }
  }

  lemma SettleKeepsInv(env: Env, s: Ledger, rows: seq<Row>, c: Caller)
    requires Inv(env, s)
    ensures Inv(env, s.(deliveries := Settle(env, s.deliveries, rows, c)))
  {
    SettleIsRun(env, s, rows, c);
    ExecKeepsInv(env, s, StatementsOf(env, rows, c));
  }
}
