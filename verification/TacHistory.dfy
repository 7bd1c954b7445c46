/** What a tac is over a whole run, call by call: its name, description, closing and members. */
module TacHistory {
  import opened Tables
  import opened Identifiers
  import opened BusRuns
  import H = AuditHistory
  import M = MailHistory
  import T = Tacs

  // ─── closing ──────────────────────────────────────────────────

  /** Step k closes this tac, which was open. */
  predicate ClosesAt(states: seq<Ledger>, ops: seq<Op>, tac: string, k: nat) {
    && k < |ops| && k < |states| && ops[k].CloseTac? && ops[k].tac == tac
    && tac in states[k].tacs && states[k].tacs[tac].closed.None?
  }

  lemma ClosingStep(env: Env, s: Ledger, op: Op, tac: string)
    requires Enabled(s, op) && tac in s.tacs
    ensures var t := Step(env, s, op);
            && tac in t.tacs
            && (op.CloseTac? && op.tac == tac && s.tacs[tac].closed.None? ==>
                  t.tacs[tac] == s.tacs[tac].(closed := t.tacs[tac].closed) && t.tacs[tac].closed.Some?
                  && t.tacs[tac].closed.value.time == op.now && t.tacs[tac].closed.value.summary == op.summary
                  && t.tacs[tac].closed.value.actor == op.actor)
            && (!(op.CloseTac? && op.tac == tac && s.tacs[tac].closed.None?)
                ==> t.tacs[tac].closed == s.tacs[tac].closed)
  {
    EveryOpIsOne(op);
    if op.Send? {
      SendFrame(env, s, op);
    } else if MovesRows(op) {
      RowFrame(env, s, op);
    } else if IsNodeOp(op) {
      NodeFrame(env, s, op);
    } else if op.Register? {
      RegisterFrame(env, s, op);
    }
  }

  lemma OnlyCreationAddsTacs(env: Env, s: Ledger, op: Op, tac: string)
    requires tac !in s.tacs && tac in Step(env, s, op).tacs
    ensures op.CreateTac? && op.minted == tac && T.Create(env, s, op.name, op.description, tac).1.Ok?
  {
    EveryOpIsOne(op);
    if op.Send? {
      SendFrame(env, s, op);
    } else if MovesRows(op) {
      RowFrame(env, s, op);
    } else if IsNodeOp(op) {
      NodeFrame(env, s, op);
    } else if op.Register? {
      RegisterFrame(env, s, op);
    }
  }

  /** A closed tac was closed by exactly one call, and keeps the time, the summary and the closer that
      call gave. */
  lemma {:induction false} ClosedAsAsked(env: Env, states: seq<Ledger>, ops: seq<Op>, tac: string, m: nat)
      returns (k: nat)
    requires IsRun(env, states, ops) && m < |states| && tac in states[m].tacs && states[m].tacs[tac].closed.Some?
    ensures k < m && ClosesAt(states, ops, tac, k)
    ensures var c := states[m].tacs[tac].closed.value;
            c.time == ops[k].now && c.summary == ops[k].summary && c.actor == ops[k].actor
  {
    assert StepAt(env, states, ops, m - 1);
    if tac !in states[m - 1].tacs {
      OnlyCreationAddsTacs(env, states[m - 1], ops[m - 1], tac);
      assert false;
    } else {
      ClosingStep(env, states[m - 1], ops[m - 1], tac);
      if ClosesAt(states, ops, tac, m - 1) {
        k := m - 1;
      } else {
        k := ClosedAsAsked(env, states, ops, tac, m - 1);
      }
    }
  }

  lemma ClosedOnce(env: Env, states: seq<Ledger>, ops: seq<Op>, tac: string, j: nat, k: nat)
    requires IsRun(env, states, ops) && j < k && ClosesAt(states, ops, tac, j)
    ensures !ClosesAt(states, ops, tac, k)
  {
    if ClosesAt(states, ops, tac, k) {
      assert StepAt(env, states, ops, j);
      ClosingStep(env, states[j], ops[j], tac);
      M.ClosingIsFinal(env, states, ops, tac, j + 1, k);
    }
  }

  // ─── creation ─────────────────────────────────────────────────

  /** A tac is created exactly when its name is usable, no row still has an old id, no node has the
      stripped name, and no tac has a name that folds like it. */
  lemma CreatedExactly(env: Env, s: Ledger, name: string, d: Option<string>, minted: string)
    requires T.Identified(env, s)
    ensures T.Create(env, s, name, d, minted).1.Ok? <==>
              && env.nameOk(name) && env.strip(name) !in s.nodes
              && forall t :: t in s.tacs ==> env.fold(s.tacs[t].name) != env.fold(env.strip(name))
    ensures T.Create(env, s, name, d, minted).1.Ok? ==>
              T.Create(env, s, name, d, minted).0 ==
                s.(tacs := s.tacs[minted := Tac(env.strip(name), env.fold(env.strip(name)), d, None)])
    ensures !T.Create(env, s, name, d, minted).1.Ok? ==> T.Create(env, s, name, d, minted).0 == s
  {
    var key := env.fold(env.strip(name));
    assert forall t :: t in s.tacs && s.tacs[t].key == key ==> t in T.Holders(s, key);
  }

  /** And renamed exactly when it exists and the name is usable, no node's, and no other tac's. */
  lemma RenamedExactly(env: Env, s: Ledger, tac: string, name: string)
    requires T.Identified(env, s)
    ensures T.Rename(env, s, tac, name).1.Ok? <==>
              && tac in s.tacs && env.nameOk(name) && env.strip(name) !in s.nodes
              && forall t :: t in s.tacs && t != tac ==> env.fold(s.tacs[t].name) != env.fold(env.strip(name))
    ensures T.Rename(env, s, tac, name).1.Ok? ==>
              T.Rename(env, s, tac, name).0.tacs ==
                s.tacs[tac := s.tacs[tac].(name := env.strip(name), key := env.fold(env.strip(name)))]
  {
  }

  /** The description a tac was created with is never touched. */
  lemma {:induction false} DescribedAsCreated(env: Env, states: seq<Ledger>, ops: seq<Op>, tac: string, m: nat)
      returns (k: nat)
    requires IsRun(env, states, ops) && m < |states| && tac in states[m].tacs
    ensures k < m && H.CreatedAt(env, states, ops, tac, k) && states[m].tacs[tac].description == ops[k].description
  {
    assert StepAt(env, states, ops, m - 1);
    if tac in states[m - 1].tacs {
      k := DescribedAsCreated(env, states, ops, tac, m - 1);
      DescriptionStays(env, states[m - 1], ops[m - 1], tac);
    } else {
      k := m - 1;
      OnlyCreationAddsTacs(env, states[k], ops[k], tac);
      EveryStateIsGood(env, states, ops, k);
      CreatedExactly(env, states[k], ops[k].name, ops[k].description, tac);
    }
  }

  lemma DescriptionStays(env: Env, s: Ledger, op: Op, tac: string)
    requires Enabled(s, op) && tac in s.tacs
    ensures tac in Step(env, s, op).tacs && Step(env, s, op).tacs[tac].description == s.tacs[tac].description
  {
    EveryOpIsOne(op);
    if op.Send? {
      SendFrame(env, s, op);
    } else if MovesRows(op) {
      RowFrame(env, s, op);
    } else if IsNodeOp(op) {
      NodeFrame(env, s, op);
    } else if op.Register? {
      RegisterFrame(env, s, op);
    }
  }

  // ─── members ──────────────────────────────────────────────────

  /** Step k takes the node in: it is known and not removed, and the tac exists. */
  predicate JoinsAt(states: seq<Ledger>, ops: seq<Op>, tac: string, node: string, k: nat) {
    && k < |ops| && k < |states| && ops[k].AddMember? && ops[k].tac == tac && ops[k].node == node
    && tac in states[k].tacs && node in states[k].nodes && node !in states[k].removed
  }

  predicate LeavesAt(states: seq<Ledger>, ops: seq<Op>, tac: string, node: string, k: nat) {
    && k < |ops| && k < |states| && ops[k].RemoveMember? && ops[k].tac == tac && ops[k].node == node
    && (IsCanonicalUuid(tac) || tac in states[k].tacs)
  }

  lemma MembersStep(env: Env, s: Ledger, op: Op, tac: string, node: string)
    ensures (tac, node) in Step(env, s, op).members <==>
              || (op.AddMember? && op.tac == tac && op.node == node
                  && tac in s.tacs && node in s.nodes && node !in s.removed)
              || ((tac, node) in s.members
                  && !(op.RemoveMember? && op.tac == tac && op.node == node && (IsCanonicalUuid(tac) || tac in s.tacs)))
  {
    EveryOpIsOne(op);
    if op.Send? {
      SendFrame(env, s, op);
    } else if MovesRows(op) {
      RowFrame(env, s, op);
    } else if IsNodeOp(op) {
      NodeFrame(env, s, op);
    } else if op.Register? {
      RegisterFrame(env, s, op);
    }
  }

  /** The answers to closing, taking in and dropping. */
  lemma RepliesExactly(s: Ledger, tac: string, node: string, summary: Option<string>, actor: Option<string>, now: int)
    ensures var r := T.Close(s, tac, summary, actor, now).1;
            && (r.Ok? <==> tac in s.tacs && s.tacs[tac].closed.None?)
            && (r.AlreadyClosed? <==> tac in s.tacs && s.tacs[tac].closed.Some?)
            && (r.NotFound? <==> tac !in s.tacs && IsCanonicalUuid(tac))
            && (r.IdInvalid? <==> tac !in s.tacs && !IsCanonicalUuid(tac))
    ensures var r := T.AddMember(s, tac, node).1;
            && (r.Ok? <==> tac in s.tacs && node in s.nodes && node !in s.removed)
            && (r.NotFound? <==> tac !in s.tacs)
            && (r.NodeMissing? <==> tac in s.tacs && node !in s.nodes)
            && (r.NodeRemoved? <==> tac in s.tacs && node in s.nodes && node in s.removed)
    ensures var r := T.RemoveMember(s, tac, node).1;
            && (r.IdInvalid? <==> tac !in s.tacs && !IsCanonicalUuid(tac))
            && (r.NotMember? <==> !r.IdInvalid? && (tac, node) !in s.members)
            && (r.Ok? <==> !r.IdInvalid? && (tac, node) in s.members)
  {
  }

  /** A node is a member exactly when it was taken in and has not been dropped since. */
  lemma {:induction false} MembersExactly(env: Env, states: seq<Ledger>, ops: seq<Op>, tac: string, node: string,
        m: nat)
    requires IsRun(env, states, ops) && m < |states|
    ensures (tac, node) in states[m].members <==> InSince(states, ops, tac, node, m)
  {
    if m > 0 {
      MembersExactly(env, states, ops, tac, node, m - 1);
      assert StepAt(env, states, ops, m - 1);
      MembersStep(env, states[m - 1], ops[m - 1], tac, node);
      InSinceStep(states, ops, tac, node, m - 1);
    }
  }

  ghost predicate InSince(states: seq<Ledger>, ops: seq<Op>, tac: string, node: string, m: nat) {
    exists k: nat :: k < m && JoinsAt(states, ops, tac, node, k)
                     && forall j: nat :: k < j < m ==> !LeavesAt(states, ops, tac, node, j)
  }

  lemma InSinceStep(states: seq<Ledger>, ops: seq<Op>, tac: string, node: string, m: nat)
    ensures InSince(states, ops, tac, node, m + 1) <==>
              JoinsAt(states, ops, tac, node, m)
              || (InSince(states, ops, tac, node, m) && !LeavesAt(states, ops, tac, node, m))
  {
    if InSince(states, ops, tac, node, m) && !LeavesAt(states, ops, tac, node, m) {
      var k: nat :| k < m && JoinsAt(states, ops, tac, node, k)
                    && forall j: nat :: k < j < m ==> !LeavesAt(states, ops, tac, node, j);
      assert forall j: nat :: k < j < m + 1 ==> !LeavesAt(states, ops, tac, node, j);
    }
    if InSince(states, ops, tac, node, m + 1) && !JoinsAt(states, ops, tac, node, m) {
      var k: nat :| k < m + 1 && JoinsAt(states, ops, tac, node, k)
                    && forall j: nat :: k < j < m + 1 ==> !LeavesAt(states, ops, tac, node, j);
      assert k < m;
    }
  }
}
