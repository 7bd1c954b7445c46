/** What an insert or an acknowledgement keeps when other calls came between its reads and its
    write. The other operations that read first are in `Overlaps`. */
module Races {
  import opened Tables
  import opened Deliveries
  import opened Sending

  // ─── bus_send: the gates read, then the transaction inserts ───

  /** What the transaction accepts at t: the constraints of the tables, and no message with this id. */
  predicate Accepts(t: Ledger, m: Message, to: seq<string>) {
    && KnownPriority(m.priority) && Find(t.messages, m.id).None? && ReplyExists(t.messages, m) && Distinct(to)
    && m.sender in t.nodes && forall n :: n in to ==> n in t.nodes
  }

  /** If other calls ran between the gates and the insert, listening order survives exactly when
      the tac gate would still have passed at the insert. */
  lemma LateInsertAndListening(t: Ledger, m: Message, to: seq<string>)
    requires WellFormed(t) && ListenedFirst(t) && Find(t.messages, m.id).None?
    ensures ListenedFirst(Append(t, m, to)) <==> (Given(m.tac) ==> !UnopenedInTac(t, m.sender, m.tac.value))
  {
    if Given(m.tac) && UnopenedInTac(t, m.sender, m.tac.value) {
      UnheardSpeaker(t, m, to);
    } else {
      AppendKeepsListening(t, m, to);
    }
  }

  lemma UnheardSpeaker(t: Ledger, m: Message, to: seq<string>)
    requires Given(m.tac) && UnopenedInTac(t, m.sender, m.tac.value)
    ensures !ListenedFirst(Append(t, m, to))
  {
    var u := Append(t, m, to);
    var n := |t.messages|;
    var k :| 0 <= k < |t.deliveries| && t.deliveries[k].recipient == m.sender && Open(t.deliveries[k])
             && InTac(t.messages, t.deliveries[k].mid, m.tac.value);
    var i :| 0 <= i < n && t.messages[i] == Find(t.messages, t.deliveries[k].mid).value;
    assert u.messages[i].tac == u.messages[n].tac && u.deliveries[k] == t.deliveries[k]
           && u.deliveries[k].mid == u.messages[i].id;
  }

  /** Likewise two nodes end up blocking each other exactly when a recipient's direct mail to the
      sender lies unopened at the insert. */
  lemma LateInsertAndBlocking(t: Ledger, m: Message, to: seq<string>)
    requires WellFormed(t) && NoMutualBlock(t) && Find(t.messages, m.id).None? && m.tac.None? && !m.broadcast
    ensures NoMutualBlock(Append(t, m, to)) <==> forall n :: n in to && n != m.sender ==> !UnopenedFrom(t, m.sender, n)
  {
    var u := Append(t, m, to);
    if n :| n in to && n != m.sender && UnopenedFrom(t, m.sender, n) {
      OldMailStays(t, m, to, m.sender, n);
      NewMailArrives(t, m, to, n);
    } else {
      forall a, b | a != b && UnopenedFrom(u, a, b) ensures !UnopenedFrom(u, b, a) {
        UnopenedAfterAppend(t, m, to, a, b);
        if UnopenedFrom(u, b, a) { UnopenedAfterAppend(t, m, to, b, a); }
      }
    }
  }

  lemma OldMailStays(t: Ledger, m: Message, to: seq<string>, node: string, from: string)
    requires Find(t.messages, m.id).None? && UnopenedFrom(t, node, from)
    ensures UnopenedFrom(Append(t, m, to), node, from)
  {
    var i :| 0 <= i < |t.deliveries| && t.deliveries[i].recipient == node && Open(t.deliveries[i])
             && DirectFrom(t.messages, t.deliveries[i].mid, from);
    FindAppend(t.messages, m, t.deliveries[i].mid);
    assert Append(t, m, to).deliveries[i] == t.deliveries[i];
  }

  lemma NewMailArrives(t: Ledger, m: Message, to: seq<string>, node: string)
    requires Find(t.messages, m.id).None? && m.tac.None? && !m.broadcast && node in to
    ensures UnopenedFrom(Append(t, m, to), node, m.sender)
  {
    var u := Append(t, m, to);
    var j :| 0 <= j < |to| && to[j] == node;
    var i := |t.deliveries| + j;
    FindAppend(t.messages, m, m.id);
    assert u.deliveries[i] == Rows(m.id, to)[j];
    assert DirectFrom(u.messages, u.deliveries[i].mid, m.sender);
  }

  /** The messages of closed tacs stay as they were. */
  ghost predicate ClosedStay(t: Ledger, u: Ledger) {
    forall tac, k :: tac in t.tacs && t.tacs[tac].closed.Some? && |t.messages| <= k < |u.messages|
                     ==> u.messages[k].tac != Some(tac)
  }

  /** The insert puts a message into a closed tac exactly when its tac was closed in between. */
  lemma LateInsertAndClosing(t: Ledger, m: Message, to: seq<string>)
    ensures ClosedStay(t, Append(t, m, to))
            <==> !(m.tac.Some? && m.tac.value in t.tacs && t.tacs[m.tac.value].closed.Some?)
  {
    var u := Append(t, m, to);
    assert u.messages[|t.messages|] == m;
  }

  /** The insert gives a program mail exactly when an addressee has become one in between. */
  lemma LateInsertAndPrograms(t: Ledger, m: Message, to: seq<string>)
    requires ProgramsReceiveNothing(t)
    ensures ProgramsReceiveNothing(Append(t, m, to)) <==> forall n :: n in to ==> !IsProgram(t, n)
  {
    var u := Append(t, m, to);
    if n :| n in to && IsProgram(t, n) {
      var j :| 0 <= j < |to| && to[j] == n;
      assert u.deliveries[|t.deliveries| + j] == Rows(m.id, to)[j];
    } else {
      forall i | |t.deliveries| <= i < |u.deliveries| ensures !IsProgram(t, u.deliveries[i].recipient) {
        assert u.deliveries[i] == Rows(m.id, to)[i - |t.deliveries|] && to[i - |t.deliveries|] in to;
      }
    }
  }

  // ─── bus_ack: the state is read, then written unconditionally ─

  /** One row's life: each entry is the row after one more statement. */
  ghost predicate Path(rows: seq<Delivery>) {
    rows != [] && Sane(rows[0]) && forall i :: 0 <= i < |rows| - 1 ==> RowStep(rows[i], rows[i + 1])
  }

  /** The UPDATE of bus_ack, which names the row but not the state it expects. */
  function Overwrite(d: Delivery, target: DeliveryState): Delivery {
    d.(state := target)
  }

  /** The row has not gone past the target. */
  predicate NotPast(d: Delivery, target: DeliveryState) {
    match target
    case Injected => Unread(d)
    case Read => d.state.Injected? || d.state.Read?
    case Processed => d.state.Read? || d.state.Processed?
    case _ => false
  }

  predicate Past(d: Delivery, e: Delivery) {
    && (d.state.Injected? ==> e.state.Injected? || e.state.Read? || e.state.Processed?)
    && (d.state.Read? ==> e.state.Read? || e.state.Processed?)
  }

  lemma {:induction false} PathGoesOn(rows: seq<Delivery>, k: nat)
    requires Path(rows) && k < |rows|
    ensures Sane(rows[k]) && Past(rows[0], rows[k])
  {
    if k > 0 {
      PathGoesOn(rows, k - 1);
      assert RowStep(rows[k - 1], rows[k - 1 + 1]);
      RowStepFacts(rows[k - 1], rows[k]);
    }
  }

  /** An acknowledgement read the first row of a path and writes over the last. That is a move the
      life of a delivery allows exactly when the row has not gone past the target meanwhile; for
      PROCESSED it always is. */
  lemma LateAcknowledgement(rows: seq<Delivery>, target: DeliveryState)
    requires Path(rows) && AllowedFrom(target) == Some(rows[0].state)
    ensures var e := rows[|rows| - 1]; RowStep(e, Overwrite(e, target)) <==> NotPast(e, target)
    ensures target.Processed? ==> NotPast(rows[|rows| - 1], target)
  {
    PathGoesOn(rows, |rows| - 1);
  }

  predicate Final(d: Delivery) {
    d.state.Processed? || d.state.Quarantined? || d.state.Dead?
  }

  /** What a late acknowledgement undoes. A row that had stopped being unread is unread again
      exactly when the target is INJECTED; a final row is changed exactly when the target is
      INJECTED, or READ over PROCESSED; a READ row goes elsewhere than to PROCESSED exactly when
      the target is INJECTED. */
  lemma LateAcknowledgementUndoes(rows: seq<Delivery>, target: DeliveryState)
    requires Path(rows) && AllowedFrom(target) == Some(rows[0].state)
    ensures var e := rows[|rows| - 1]; var f := Overwrite(e, target);
            && (!Unread(e) && Unread(f) <==> !Unread(e) && target.Injected?)
            && (Final(e) && f != e <==> Final(e) && (target.Injected? || (target.Read? && e.state.Processed?)))
            && (e.state.Read? && !f.state.Read? && !f.state.Processed? <==> e.state.Read? && target.Injected?)
  {
    PathGoesOn(rows, |rows| - 1);
  }

  /** Each of these happens. Two calls acknowledge a message at once, and the slower undoes what
      has become of it: PROCESSED goes back to READ, READ back to INJECTED, and a row whose lease
      ran out and that was then quarantined comes back as INJECTED. */
  lemma LateAcknowledgementGoesBack(d: Delivery)
    requires Sane(d)
    ensures d.state.Injected? ==>
              var rows := [d, d.(state := Read), d.(state := Processed)];
              && Path(rows) && AllowedFrom(Read) == Some(d.state)
              && Overwrite(rows[2], Read).state.Read? && !RowStep(rows[2], Overwrite(rows[2], Read))
    ensures d.state.Claimed? ==>
              var rows := [d, d.(state := Injected), d.(state := Read)];
              && Path(rows) && AllowedFrom(Injected) == Some(d.state)
              && !Unread(rows[2]) && Unread(Overwrite(rows[2], Injected))
    ensures d.state.Claimed? && d.attempts < MAX_ATTEMPTS ==>
              var free := d.(state := Accepted, lease := None, claimedBy := None);
              var rows := [d, free, free.(state := Quarantined)];
              && Path(rows) && Final(rows[2]) && Overwrite(rows[2], Injected).state.Injected?
  {
    if d.state.Injected? {
      var rows := [d, d.(state := Read), d.(state := Processed)];
      assert RowStep(rows[0], rows[1]) && RowStep(rows[1], rows[2]);
    } else if d.state.Claimed? {
      var rows := [d, d.(state := Injected), d.(state := Read)];
      assert RowStep(rows[0], rows[1]) && RowStep(rows[1], rows[2]);
      var free := d.(state := Accepted, lease := None, claimedBy := None);
      assert d.attempts < MAX_ATTEMPTS ==> RowStep(d, free) && RowStep(free, free.(state := Quarantined));
    }
  }
}
