/** What registrations make of a node over a whole run, and when one is refused. */
module NodeHistory {
  import opened Tables
  import opened Identifiers
  import opened BusRuns
  import opened Registration
  import A = Admin
  import Base58
  import H = AuditHistory

  // ─── the time of the last registration ────────────────────────

  /** Step k is an accepted registration of this node. */
  predicate AcceptedAt(states: seq<Ledger>, ops: seq<Op>, node: string, k: nat) {
    k < |ops| && k < |states| && H.Registers(states[k], ops[k], node)
  }

  /** Step k deletes this node. */
  predicate PurgedAt(states: seq<Ledger>, ops: seq<Op>, node: string, k: nat) {
    H.PurgedAt(states, ops, node, k)
  }

  ghost predicate NotPurged(states: seq<Ledger>, ops: seq<Op>, node: string, from: nat, to: nat) {
    forall j: nat :: from <= j < to ==> !PurgedAt(states, ops, node, j)
  }

  /** The last accepted registration of the node before m is step k, with no purge since. */
  ghost predicate LastAccepted(states: seq<Ledger>, ops: seq<Op>, node: string, k: nat, m: nat) {
    && k < m && AcceptedAt(states, ops, node, k) && NotPurged(states, ops, node, k, m)
    && forall j: nat :: k < j < m ==> !AcceptedAt(states, ops, node, j)
  }

  /** No other step touches a boot time or a program mark, or makes a node. */
  lemma OthersLeaveBoots(env: Env, s: Ledger, op: Op, node: string)
    requires !H.Registers(s, op, node) && !H.Purges(s, op, node)
    ensures var t := Step(env, s, op);
            && (node in t.nodes <==> node in s.nodes)
            && (node in s.nodes ==> t.nodes[node].bootAt == s.nodes[node].bootAt
                                    && t.nodes[node].isProgram == s.nodes[node].isProgram)
  {
    EveryOpIsOne(op);
    if op.Send? {
      SendFrame(env, s, op);
    } else if MovesRows(op) {
      RowFrame(env, s, op);
    } else if IsTacOp(op) {
      TacFrame(env, s, op);
    }
  }

  lemma RegistrationSetsBoot(env: Env, s: Ledger, op: Op, node: string)
    requires H.Registers(s, op, node)
    ensures var t := Step(env, s, op);
            node in t.nodes && t.nodes[node].bootAt == op.reg.now && t.nodes[node].isProgram == op.reg.program
    ensures node in s.nodes ==> s.nodes[node].bootAt <= op.reg.now
  {
  }

  /** A known node's boot time is the time of its last accepted registration since its last purge,
      and it is a program exactly when that one said so. */
  lemma {:induction false} BootIsLastRegistration(env: Env, states: seq<Ledger>, ops: seq<Op>, node: string, m: nat)
      returns (k: nat)
    requires IsRun(env, states, ops) && m < |states| && node in states[m].nodes
    ensures LastAccepted(states, ops, node, k, m) && states[m].nodes[node].bootAt == ops[k].reg.now
    ensures states[m].nodes[node].isProgram == ops[k].reg.program
  {
    assert StepAt(env, states, ops, m - 1);
    if AcceptedAt(states, ops, node, m - 1) {
      k := m - 1;
      RegistrationSetsBoot(env, states[m - 1], ops[m - 1], node);
    } else {
      PurgedIsGone(env, states, ops, node, m - 1);
      OthersLeaveBoots(env, states[m - 1], ops[m - 1], node);
      k := BootIsLastRegistration(env, states, ops, node, m - 1);
    }
  }

  lemma PurgedIsGone(env: Env, states: seq<Ledger>, ops: seq<Op>, node: string, k: nat)
    requires IsRun(env, states, ops) && k < |ops|
    ensures PurgedAt(states, ops, node, k) ==> node !in states[k + 1].nodes
  {
    assert StepAt(env, states, ops, k);
    if PurgedAt(states, ops, node, k) { H.PurgeForgets(env, states[k], ops[k], node); }
  }

  /** It never goes back while the node exists. */
  lemma {:induction false} BootsNeverGoBack(env: Env, states: seq<Ledger>, ops: seq<Op>, node: string, i: nat, j: nat)
    requires IsRun(env, states, ops) && i <= j < |states| && node in states[i].nodes
    requires NotPurged(states, ops, node, i, j)
    ensures node in states[j].nodes && states[i].nodes[node].bootAt <= states[j].nodes[node].bootAt
  {
    if i < j {
      BootsNeverGoBack(env, states, ops, node, i, j - 1);
      assert StepAt(env, states, ops, j - 1);
      assert !PurgedAt(states, ops, node, j - 1);
      if AcceptedAt(states, ops, node, j - 1) {
        RegistrationSetsBoot(env, states[j - 1], ops[j - 1], node);
      } else {
        OthersLeaveBoots(env, states[j - 1], ops[j - 1], node);
      }
    }
  }

  /** Some accepted registration of the node since its last purge came with a later time. */
  ghost predicate RegisteredLater(states: seq<Ledger>, ops: seq<Op>, node: string, now: int, m: nat) {
    exists k: nat :: k < m && AcceptedAt(states, ops, node, k) && ops[k].reg.now > now
                     && NotPurged(states, ops, node, k, m)
  }

  lemma LaterIsKept(env: Env, states: seq<Ledger>, ops: seq<Op>, node: string, now: int, m: nat)
    requires IsRun(env, states, ops) && m < |states|
    ensures RegisteredLater(states, ops, node, now, m)
            <==> node in states[m].nodes && states[m].nodes[node].bootAt > now
  {
    if RegisteredLater(states, ops, node, now, m) {
      var k: nat :| k < m && AcceptedAt(states, ops, node, k) && ops[k].reg.now > now
      && NotPurged(states, ops, node, k, m);
      assert StepAt(env, states, ops, k);
      RegistrationSetsBoot(env, states[k], ops[k], node);
      BootsNeverGoBack(env, states, ops, node, k + 1, m);
    }
    if node in states[m].nodes && states[m].nodes[node].bootAt > now {
      var k := BootIsLastRegistration(env, states, ops, node, m);
    }
  }

  /** In every run a registration is refused as coming from an older instance exactly when its name
      and flag pass, the node is not removed, and it was registered with a later time since its last
      purge. */
  lemma NewerInstanceExactly(env: Env, states: seq<Ledger>, ops: seq<Op>, m: nat, a: Registration)
    requires IsRun(env, states, ops) && m < |states|
    ensures Refused(states[m], a) == Some(NewerInstance) <==>
              && IsSafeNodeId(a.node) && a.autoEnter != Junk && a.node !in states[m].removed
              && RegisteredLater(states, ops, a.node, a.now, m)
  {
    LaterIsKept(env, states, ops, a.node, a.now, m);
  }

  /** Nothing but a name, as a restart sends it. */
  predicate Plain(a: Registration) {
    && a.adapter == "" && a.target == "" && a.host == "" && a.takeRoute == Unset && a.autoEnter == Unset
    && a.verified == Unset && a.revokeRoute == Unset
    && a.revokeAdapter == "" && a.revokeTarget == "" && a.revokeHost == ""
  }

  /** So a node that is not removed may register plainly again at its last time or any after it, as
      what it is. */
  lemma RestartIsAccepted(env: Env, states: seq<Ledger>, ops: seq<Op>, m: nat, k: nat, a: Registration)
    requires IsRun(env, states, ops) && m < |states| && Plain(a) && a.node in states[m].nodes
    requires LastAccepted(states, ops, a.node, k, m) && ops[k].reg.now <= a.now && a.node !in states[m].removed
    requires a.program ==> states[m].nodes[a.node].isProgram
    ensures Refused(states[m], a).None?
  {
    var last := BootIsLastRegistration(env, states, ops, a.node, m);
    assert last == k;
    NodeNamesAreSafe(env, states, ops, a.node, m);
  }

  /** Every known node has a safe name. */
  lemma NodeNamesAreSafe(env: Env, states: seq<Ledger>, ops: seq<Op>, node: string, m: nat)
    requires IsRun(env, states, ops) && m < |states| && node in states[m].nodes
    ensures IsSafeNodeId(node)
  {
    var k := BootIsLastRegistration(env, states, ops, node, m);
  }

  // ─── quiet ────────────────────────────────────────────────────

  predicate SnoozesAt(states: seq<Ledger>, ops: seq<Op>, node: string, k: nat) {
    k < |ops| && k < |states| && ops[k].Snooze? && ops[k].node == node && node in states[k].nodes
  }

  lemma SnoozeStep(env: Env, s: Ledger, op: Op, node: string)
    requires node in Step(env, s, op).nodes
    ensures var t := Step(env, s, op);
            t.nodes[node].snoozeUntil ==
              if node !in s.nodes then None
              else if op.Snooze? && op.node == node then op.until
              else s.nodes[node].snoozeUntil
  {
    EveryOpIsOne(op);
    if op.Send? {
      SendFrame(env, s, op);
    } else if MovesRows(op) {
      RowFrame(env, s, op);
    } else if IsTacOp(op) {
      TacFrame(env, s, op);
    }
  }

  /** A node is quiet until what the last call for it said, if there was one since it last came to be. */
  lemma {:induction false} SnoozedAsAsked(env: Env, states: seq<Ledger>, ops: seq<Op>, node: string, m: nat)
    requires IsRun(env, states, ops) && m < |states| && node in states[m].nodes
    ensures var until := states[m].nodes[node].snoozeUntil;
            || (exists k: nat :: k < m && SnoozesAt(states, ops, node, k) && ops[k].until == until
                                 && forall j: nat :: k < j < m ==> !SnoozesAt(states, ops, node, j))
            || (until.None? && exists k: nat :: k < m && node !in states[k].nodes
                                                && forall j: nat :: k < j < m ==> !SnoozesAt(states, ops, node, j))
  {
    assert StepAt(env, states, ops, m - 1);
    SnoozeStep(env, states[m - 1], ops[m - 1], node);
    if node in states[m - 1].nodes && !SnoozesAt(states, ops, node, m - 1) {
      SnoozedAsAsked(env, states, ops, node, m - 1);
      var until := states[m - 1].nodes[node].snoozeUntil;
      if k: nat :| k < m - 1 && SnoozesAt(states, ops, node, k) && ops[k].until == until
                   && forall j: nat :: k < j < m - 1 ==> !SnoozesAt(states, ops, node, j) {
        assert forall j: nat :: k < j < m ==> !SnoozesAt(states, ops, node, j);
      } else {
        var k: nat :| k < m - 1 && node !in states[k].nodes
        && forall j: nat :: k < j < m - 1 ==> !SnoozesAt(states, ops, node, j);
        assert forall j: nat :: k < j < m ==> !SnoozesAt(states, ops, node, j);
      }
    }
  }

  // ─── removing, restoring, re-keying ───────────────────────────

  /** A node goes, for now or for good, exactly when it is known and, for good, nothing was ever sent
      by or to it and it has no route row; a removed one comes back; a key changes exactly when it is
      32 bytes in base58 and another than the one held. */
  lemma AdministeredExactly(s: Ledger, node: string, key: string)
    requires IsSafeNodeId(node)
    ensures A.Remove(s, node, false).1.Ok? <==> node in s.nodes
    ensures A.Remove(s, node, true).1.Ok? <==>
              && node in s.nodes && node !in s.routes
              && (forall i :: 0 <= i < |s.messages| ==> s.messages[i].sender != node)
              && (forall i :: 0 <= i < |s.deliveries| ==> s.deliveries[i].recipient != node)
    ensures A.Remove(s, node, true).1.Ok? ==> A.Remove(s, node, true).0.nodes == s.nodes - {node}
    ensures A.RestoreNode(s, node).1.Ok? <==> node in s.removed
    ensures A.Rotate(s, node, key).1.Ok? <==>
              && Base58.Decode(key).Some? && |Base58.Decode(key).value| == 32
              && node in s.nodes && s.nodes[node].pubkey != Some(key)
    ensures A.Rotate(s, node, key).1.Ok? ==>
              A.Rotate(s, node, key).0.nodes == s.nodes[node := s.nodes[node].(pubkey := Some(key))]
  {
    H.EmptyIsNoKey();
    var traces := A.HasTraces(s, node);
    assert forall i :: 0 <= i < |s.messages| ==> s.messages[i] in s.messages;
    assert forall i :: 0 <= i < |s.deliveries| ==> s.deliveries[i] in s.deliveries;
  }

  // ─── every refusal ────────────────────────────────────────────

  predicate RouteGiven(a: Registration) {
    a.adapter != "" && a.target != "" && a.host != ""
  }

  /** The arguments fit together: a program asks for no route, proof, takeover and Enter come with a
      whole route, and a rejected route is whole and comes alone. */
  predicate Consistent(a: Registration) {
    && (a.program ==> a.adapter == "" && a.target == "")
    && (a.verified == On || a.takeRoute == On || a.autoEnter == On ==> RouteGiven(a))
    && (if a.revokeRoute == On
        then a.revokeAdapter != "" && a.revokeTarget != "" && a.revokeHost != "" && !a.program
             && a.adapter == "" && a.target == "" && a.host == ""
        else a.revokeAdapter == "" && a.revokeTarget == "" && a.revokeHost == "")
  }

  /** Another node holds the pane. */
  predicate PaneIsTaken(s: Ledger, a: Registration) {
    exists n :: n in s.routes && n != a.node && s.routes[n].active
                && s.routes[n].host == a.host && s.routes[n].target == a.target
  }

  /** The node has a marked row, and not an active route at just this place. */
  predicate MarkedElsewhere(s: Ledger, a: Registration) {
    && a.node in s.routes && s.routes[a.node].verified
    && !(s.routes[a.node].active && s.routes[a.node].adapter == a.adapter && s.routes[a.node].target == a.target
         && s.routes[a.node].host == a.host)
  }

  lemma TakenPaneHasOwner(s: Ledger, a: Registration)
    ensures PaneIsTaken(s, a) <==> Owners(s, a) != {}
  {
    if PaneIsTaken(s, a) {
      var n :| n in s.routes && n != a.node && s.routes[n].active
               && s.routes[n].host == a.host && s.routes[n].target == a.target;
      assert n in Owners(s, a);
    }
    if Owners(s, a) != {} {
      var n :| n in Owners(s, a);
    }
  }

  /** What a registration must meet to be accepted. */
  lemma AcceptedExactly(s: Ledger, a: Registration)
    ensures Refused(s, a).None? <==>
              && IsSafeNodeId(a.node) && a.autoEnter != Junk && a.node !in s.removed
              && (a.node in s.nodes ==> s.nodes[a.node].bootAt <= a.now)
              && Consistent(a)
              && (a.program && a.node in s.nodes ==> s.nodes[a.node].isProgram)
              && (RouteGiven(a) && MarkedElsewhere(s, a) ==> a.verified == On)
              && (RouteGiven(a) && PaneIsTaken(s, a) ==> a.takeRoute == On)
  {
    TakenPaneHasOwner(s, a);
  }

  /** This reason to refuse it applies. */
  predicate Applies(s: Ledger, a: Registration, why: Refusal) {
    match why
    case UnsafeName => !IsSafeNodeId(a.node)
    case AutoEnterNotBoolean => a.autoEnter == Junk
    case RemovedNode => a.node in s.removed
    case NewerInstance => a.node in s.nodes && a.now < s.nodes[a.node].bootAt
    case ProgramWithRoute =>
      a.program && !(a.adapter == "" && a.target == "" && a.takeRoute != On && a.revokeRoute != On && a.verified != On)
    case ProofWithoutRoute => a.verified == On && !RouteGiven(a)
    case TakeWithoutRoute => a.takeRoute == On && !RouteGiven(a)
    case AutoEnterWithoutRoute => a.autoEnter == On && !RouteGiven(a)
    case IncompleteRejectedRoute =>
      a.revokeRoute == On && !(a.revokeAdapter != "" && a.revokeTarget != "" && a.revokeHost != "")
    case RevokeWithRoute =>
      a.revokeRoute == On && !(a.adapter == "" && a.target == "" && a.host == "" && a.takeRoute != On)
    case RejectedRouteWithoutRevoke =>
      a.revokeRoute != On && !(a.revokeAdapter == "" && a.revokeTarget == "" && a.revokeHost == "")
    case AgentCannotBecomeProgram => a.program && a.node in s.nodes && !s.nodes[a.node].isProgram
    case NeedsProof => RouteGiven(a) && MarkedElsewhere(s, a) && a.verified != On
    case RouteOwned => RouteGiven(a) && PaneIsTaken(s, a) && a.takeRoute != On
  }

  /** The order of the reasons. */
  function Rank(why: Refusal): nat {
    match why
    case UnsafeName => 0
    case AutoEnterNotBoolean => 1
    case RemovedNode => 2
    case NewerInstance => 3
    case ProgramWithRoute => 4
    case ProofWithoutRoute => 5
    case TakeWithoutRoute => 6
    case AutoEnterWithoutRoute => 7
    case IncompleteRejectedRoute => 8
    case RevokeWithRoute => 9
    case RejectedRouteWithoutRevoke => 10
    case AgentCannotBecomeProgram => 11
    case NeedsProof => 12
    case RouteOwned => 13
  }

  lemma NoEarlierReason(s: Ledger, a: Registration, other: Refusal)
    ensures match Refused(s, a)
            case None => !Applies(s, a, other)
            case Some(why) => Applies(s, a, why) && (Rank(other) < Rank(why) ==> !Applies(s, a, other))
  {
    TakenPaneHasOwner(s, a);
  }

  lemma RanksDiffer(v: Refusal, w: Refusal)
    ensures Rank(v) == Rank(w) ==> v == w
  {
  }

  /** A refusal gives the first reason that applies. */
  lemma FirstReason(s: Ledger, a: Registration, why: Refusal)
    ensures Refused(s, a) == Some(why) <==>
              Applies(s, a, why) && forall other :: Rank(other) < Rank(why) ==> !Applies(s, a, other)
  {
    forall other { NoEarlierReason(s, a, other); }
    if Refused(s, a).Some? { RanksDiffer(why, Refused(s, a).value); }
  }
}
