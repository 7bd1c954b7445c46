/** The bus as a state machine: any number of processes, any order, each operation one step. Most
    are one statement or transaction; those that read first and write later are taken here as if
    nothing came between, and `Overlaps` says what holds when something does. */
module BusRuns {
  import opened Tables
  import opened Identifiers
  import opened Deliveries
  import R = Registration
  import S = Sending
  import A = Admin
  import T = Tacs

  /** `claim_new` is Reset, then a snapshot read, then one Claim or Quarantine per row it read;
      `reopen_unread` is a snapshot read, then the same per row. The steps of concurrent calls
      interleave freely. */
  datatype Op =
    | Register(reg: R.Registration)
    | Rotate(node: string, key: string)
    | Remove(node: string, purge: bool)
    | RestoreNode(node: string)
    | Snooze(node: string, until: Option<int>)
    | Send(letter: S.Letter)
    | Reset(node: string, now: int)
    | Claim(did: nat, lease: int, claimant: string)
    | Quarantine(did: nat)
    | MarkInjected(node: string, mids: seq<string>)
    | Inject(node: string, dids: seq<nat>)
    | Ack(node: string, mid: string, target: DeliveryState)
    | CatchUp(node: string, tac: string, ids: Option<seq<string>>)
    | CreateTac(name: string, description: Option<string>, minted: string)
    | RenameTac(tac: string, name: string)
    | CloseTac(tac: string, summary: Option<string>, actor: Option<string>, now: int)
    | AddMember(tac: string, node: string)
    | RemoveMember(tac: string, node: string)

  /** The engine's part: minted ids are fresh, query answers are right. */
  ghost predicate Enabled(s: Ledger, op: Op) {
    match op
    case Send(l) => S.Supplied(s, l)
    case CreateTac(_, _, minted) => IsCanonicalUuid(minted) && minted !in s.tacs
    case _ => true
  }

  function DeliveriesAfter(s: Ledger, op: Op): seq<Delivery> {
    match op
    case Reset(node, now) => Deliveries.Reset(s.deliveries, node, now)
    case Claim(did, lease, who) => Deliveries.Claim(s.deliveries, did, lease, who)
    case Quarantine(did) => Deliveries.Quarantine(s.deliveries, did)
    case MarkInjected(node, mids) => Deliveries.MarkInjected(s.deliveries, node, mids)
    case Inject(node, dids) => Deliveries.Inject(s.deliveries, node, dids)
    case Ack(node, mid, target) => Deliveries.Ack(s.deliveries, node, mid, target)
    case CatchUp(node, tac, ids) => Deliveries.CatchUp(s.deliveries, node, s.messages, tac, ids)
    case _ => s.deliveries
  }

  predicate MovesRows(op: Op) {
    op.Reset? || op.Claim? || op.Quarantine? || op.MarkInjected? || op.Inject? || op.Ack? || op.CatchUp?
  }

  function Step(env: Env, s: Ledger, op: Op): Ledger {
    match op
    case Register(a) => R.Register(s, a)
    case Rotate(node, key) => A.Rotate(s, node, key).0
    case Remove(node, purge) => A.Remove(s, node, purge).0
    case RestoreNode(node) => A.RestoreNode(s, node).0
    case Snooze(node, until) => A.Snooze(s, node, until)
    case Send(l) => S.Send(env, s, l).0
    case CreateTac(name, d, minted) => T.Create(env, s, name, d, minted).0
    case RenameTac(tac, name) => T.Rename(env, s, tac, name).0
    case CloseTac(tac, summary, actor, now) => T.Close(s, tac, summary, actor, now).0
    case AddMember(tac, node) => T.AddMember(s, tac, node).0
    case RemoveMember(tac, node) => T.RemoveMember(s, tac, node).0
    case _ => s.(deliveries := DeliveriesAfter(s, op))
  }

  ghost predicate StepAt(env: Env, states: seq<Ledger>, ops: seq<Op>, k: nat)
    requires k < |ops| && |states| == |ops| + 1
  {
    Enabled(states[k], ops[k]) && states[k + 1] == Step(env, states[k], ops[k])
  }

  /** states[0] is the empty ledger and ops[k] leads from states[k] to states[k + 1]. */
  ghost predicate IsRun(env: Env, states: seq<Ledger>, ops: seq<Op>) {
    && |states| == |ops| + 1
    && states[0] == EMPTY
    && forall k: nat :: k < |ops| ==> StepAt(env, states, ops, k)
  }

  function Extended(env: Env, states: seq<Ledger>, op: Op): seq<Ledger>
    requires |states| > 0
  {
    states + [Step(env, states[|states| - 1], op)]
  }

  lemma ExtendRun(env: Env, states: seq<Ledger>, ops: seq<Op>, op: Op)
    requires IsRun(env, states, ops) && Enabled(states[|ops|], op)
    ensures IsRun(env, Extended(env, states, op), ops + [op])
  {
    var longer, more := Extended(env, states, op), ops + [op];
    forall k: nat | k < |more| ensures StepAt(env, longer, more, k) {
      if k < |ops| {
        assert StepAt(env, states, ops, k);
        assert longer[k] == states[k] && longer[k + 1] == states[k + 1] && more[k] == ops[k];
      }
    }
  }

  /** Some run ends here. */
  ghost predicate Reached(env: Env, s: Ledger) {
    exists states, ops :: IsRun(env, states, ops) && states[|ops|] == s
  }

  lemma ReachedStart(env: Env)
    ensures Reached(env, EMPTY)
  {
    var states, ops := [EMPTY], [];
    assert IsRun(env, states, ops) && states[|ops|] == EMPTY;
  }

  lemma ReachedStep(env: Env, s: Ledger, op: Op)
    requires Reached(env, s) && Enabled(s, op)
    ensures Reached(env, Step(env, s, op))
  {
    var states, ops :| IsRun(env, states, ops) && states[|ops|] == s;
    ExtendRun(env, states, ops, op);
    var longer, more := Extended(env, states, op), ops + [op];
    assert IsRun(env, longer, more) && longer[|more|] == Step(env, s, op);
  }

  // ─── the invariants ───────────────────────────────────────────

  ghost predicate AllSane(s: Ledger) {
    forall i :: 0 <= i < |s.deliveries| ==> Sane(s.deliveries[i])
  }

  ghost predicate MailInv(s: Ledger) {
    S.WellFormed(s) && AllSane(s) && S.ProgramsReceiveNothing(s) && S.ListenedFirst(s) && S.NoMutualBlock(s)
  }

  ghost predicate Inv(env: Env, s: Ledger) {
    && MailInv(s)
    && R.ExclusiveRoutes(s.routes) && R.RoutesHaveAgents(s)
    && A.RemovalsReplay(s)
    && T.Identified(env, s)
  }

  // ─── which tables a step may touch ────────────────────────────

  predicate IsTacOp(op: Op) {
    op.CreateTac? || op.RenameTac? || op.CloseTac? || op.AddMember? || op.RemoveMember?
  }

  predicate IsNodeOp(op: Op) {
    op.Rotate? || op.Remove? || op.RestoreNode? || op.Snooze?
  }

  lemma TacFrame(env: Env, s: Ledger, op: Op)
    requires IsTacOp(op)
    ensures var t := Step(env, s, op); t == s.(tacs := t.tacs, members := t.members, nameChanges := t.nameChanges)
  {
  }

  lemma NodeFrame(env: Env, s: Ledger, op: Op)
    requires IsNodeOp(op)
    ensures var t := Step(env, s, op);
            t == s.(nodes := t.nodes, removed := t.removed, removals := t.removals, rotations := t.rotations)
  {
  }

  lemma RegisterFrame(env: Env, s: Ledger, op: Op)
    requires op.Register?
    ensures var t := Step(env, s, op); t == s.(nodes := t.nodes, routes := t.routes)
  {
  }

  lemma RowFrame(env: Env, s: Ledger, op: Op)
    requires MovesRows(op)
    ensures Step(env, s, op) == s.(deliveries := DeliveriesAfter(s, op))
  {
  }

  lemma SendFrame(env: Env, s: Ledger, op: Op)
    requires op.Send?
    ensures var t := Step(env, s, op); t == s.(messages := t.messages, deliveries := t.deliveries)
  {
    S.AllOrNothing(env, s, op.letter);
  }

  lemma EveryOpIsOne(op: Op)
    ensures op.Send? || MovesRows(op) || op.Register? || IsNodeOp(op) || IsTacOp(op)
  {
  }

  /** Only a registration, a rotation or a purge writes a key, and only a rotation logs one. */
  lemma OtherStepsKeepKeys(env: Env, s: Ledger, op: Op)
    requires !op.Register? && !op.Rotate? && !(op.Remove? && op.purge)
    ensures var t := Step(env, s, op);
            && t.rotations == s.rotations && t.nodes.Keys == s.nodes.Keys
            && forall n :: n in s.nodes ==> t.nodes[n].pubkey == s.nodes[n].pubkey
  {
    EveryOpIsOne(op);
    if op.Send? {
      SendFrame(env, s, op);
    } else if MovesRows(op) {
      RowFrame(env, s, op);
    } else if IsTacOp(op) {
      TacFrame(env, s, op);
    }
  }

  /** Nodes come and go, but only a purge drops one, and one with any history stays an agent or a
      program as it was. */
  lemma NodeOpKeepsNodes(env: Env, s: Ledger, op: Op)
    requires IsNodeOp(op)
    ensures var t := Step(env, s, op);
            forall n :: n in s.nodes && A.HasTraces(s, n)
                        ==> n in t.nodes && t.nodes[n].isProgram == s.nodes[n].isProgram
  {
    if op.Remove? { A.RemoveKeepsTraced(s, op.node, op.purge); }
  }

  /** Every step moves the delivery table only as `TableStep` allows. */
  lemma StepMovesTable(env: Env, s: Ledger, op: Op)
    ensures TableStep(s.deliveries, Step(env, s, op).deliveries)
    ensures !op.Send? ==> |Step(env, s, op).deliveries| == |s.deliveries|
  {
    EveryOpIsOne(op);
    if op.Send? {
      S.AllOrNothing(env, s, op.letter);
    } else if MovesRows(op) {
      StatementsAreTableSteps(s.deliveries);
    } else if op.Register? {
      RegisterFrame(env, s, op);
    } else if IsNodeOp(op) {
      NodeFrame(env, s, op);
    } else {
      TacFrame(env, s, op);
    }
  }

  lemma RowsKeepSane(s: Ledger, es: seq<Delivery>)
    requires AllSane(s) && TableStep(s.deliveries, es)
    ensures AllSane(s.(deliveries := es))
  {
    forall i | 0 <= i < |es| ensures Sane(es[i]) {
      if i < |s.deliveries| { RowStepFacts(s.deliveries[i], es[i]); }
    }
  }

  lemma RowsKeepNoMutualBlock(s: Ledger, es: seq<Delivery>)
    requires AllSane(s) && TableStep(s.deliveries, es) && |es| == |s.deliveries|
    requires S.NoMutualBlock(s)
    ensures S.NoMutualBlock(s.(deliveries := es))
  {
    var t := s.(deliveries := es);
    forall i | 0 <= i < |es| ensures es[i].mid == s.deliveries[i].mid && es[i].recipient == s.deliveries[i].recipient
                                     && (Open(es[i]) ==> Open(s.deliveries[i]))
    {
      RowStepFacts(s.deliveries[i], es[i]);
    }
    assert forall a, b :: S.UnopenedFrom(t, a, b) ==> S.UnopenedFrom(s, a, b);
  }

  /** A statement on delivery rows keeps every mail invariant: it never reopens a row. */
  lemma RowsKeepMail(s: Ledger, es: seq<Delivery>)
    requires MailInv(s) && TableStep(s.deliveries, es) && |es| == |s.deliveries|
    ensures MailInv(s.(deliveries := es))
  {
    RowsKeepSane(s, es);
    RowsKeepNoMutualBlock(s, es);
    forall i | 0 <= i < |es| ensures es[i].mid == s.deliveries[i].mid && es[i].recipient == s.deliveries[i].recipient
                                     && (Open(es[i]) ==> Open(s.deliveries[i]))
    {
      RowStepFacts(s.deliveries[i], es[i]);
    }
  }

  lemma SendKeepsSane(env: Env, s: Ledger, l: S.Letter)
    requires AllSane(s)
    ensures AllSane(S.Send(env, s, l).0)
  {
    StepMovesTable(env, s, Send(l));
    RowsKeepSane(s, Step(env, s, Send(l)).deliveries);
  }

  lemma SendKeepsMail(env: Env, s: Ledger, l: S.Letter)
    requires MailInv(s) && S.Supplied(s, l)
    ensures MailInv(S.Send(env, s, l).0)
  {
    S.SendKeepsWellFormed(env, s, l);
    S.SendKeepsProgramsOut(env, s, l);
    S.SendKeepsListening(env, s, l);
    S.SendKeepsNoMutualBlock(env, s, l);
    SendKeepsSane(env, s, l);
  }

  /** Mail invariants only look at the mail tables and at which nodes are programs. */
  lemma NodesKeepMail(s: Ledger, t: Ledger)
    requires MailInv(s) && t.messages == s.messages && t.deliveries == s.deliveries
    requires forall m :: m in s.messages ==> m.sender in t.nodes
    requires forall d :: d in s.deliveries ==> d.recipient in t.nodes && !t.nodes[d.recipient].isProgram
    ensures MailInv(t)
  {
    assert forall a, b :: S.UnopenedFrom(t, a, b) ==> S.UnopenedFrom(s, a, b);
  }

  lemma HistoryKeepsMailNodes(s: Ledger, t: Ledger)
    requires forall n :: n in s.nodes && A.HasTraces(s, n)
                         ==> n in t.nodes && t.nodes[n].isProgram == s.nodes[n].isProgram
    ensures forall m :: m in s.messages && m.sender in s.nodes ==> m.sender in t.nodes
    ensures forall d :: d in s.deliveries && d.recipient in s.nodes && !s.nodes[d.recipient].isProgram
                        ==> d.recipient in t.nodes && !t.nodes[d.recipient].isProgram
  {
  }

  /** A step that neither sends nor moves rows leaves the mail tables alone, keeps every node
      with mail, and makes no node with mail a program. */
  lemma OtherStepsLeaveMail(env: Env, s: Ledger, op: Op)
    requires !op.Send? && !MovesRows(op)
    ensures var t := Step(env, s, op);
            && t.messages == s.messages && t.deliveries == s.deliveries
            && (forall m :: m in s.messages && m.sender in s.nodes ==> m.sender in t.nodes)
            && (forall d :: d in s.deliveries && d.recipient in s.nodes && !s.nodes[d.recipient].isProgram
                            ==> d.recipient in t.nodes && !t.nodes[d.recipient].isProgram)
  {
    EveryOpIsOne(op);
    if IsNodeOp(op) {
      NodeFrame(env, s, op);
      NodeOpKeepsNodes(env, s, op);
      HistoryKeepsMailNodes(s, Step(env, s, op));
    } else if op.Register? {
      RegisterFrame(env, s, op);
      R.RegisterKeepsNodes(s, op.reg);
    } else {
      TacFrame(env, s, op);
    }
  }

  lemma OtherStepsKeepMail(env: Env, s: Ledger, op: Op)
    requires MailInv(s) && !op.Send? && !MovesRows(op)
    ensures MailInv(Step(env, s, op))
  {
    OtherStepsLeaveMail(env, s, op);
    assert forall d :: d in s.deliveries ==> d.recipient in s.nodes && !S.IsProgram(s, d.recipient);
    NodesKeepMail(s, Step(env, s, op));
  }

  lemma StepKeepsMail(env: Env, s: Ledger, op: Op)
    requires MailInv(s) && Enabled(s, op)
    ensures MailInv(Step(env, s, op))
  {
    if op.Send? {
      SendKeepsMail(env, s, op.letter);
    } else if MovesRows(op) {
      StepMovesTable(env, s, op);
      RowsKeepMail(s, DeliveriesAfter(s, op));
    } else {
      OtherStepsKeepMail(env, s, op);
    }
  }

  lemma StepKeepsRoutes(env: Env, s: Ledger, op: Op)
    requires R.ExclusiveRoutes(s.routes) && R.RoutesHaveAgents(s)
    ensures R.ExclusiveRoutes(Step(env, s, op).routes) && R.RoutesHaveAgents(Step(env, s, op))
  {
    if op.Register? {
      R.RegisterKeepsExclusive(s, op.reg);
      R.RegisterKeepsAgents(s, op.reg);
    } else {
      OtherStepsLeaveRoutes(env, s, op);
    }
  }

  /** Only a registration writes routes, and no step takes a node with a route away or turns an
      agent into a program. */
  lemma OtherStepsLeaveRoutes(env: Env, s: Ledger, op: Op)
    requires !op.Register?
    ensures Step(env, s, op).routes == s.routes
    ensures R.RoutesHaveAgents(s) ==> R.RoutesHaveAgents(Step(env, s, op))
  {
    EveryOpIsOne(op);
    if op.Send? {
      SendFrame(env, s, op);
    } else if MovesRows(op) {
      RowFrame(env, s, op);
    } else if IsNodeOp(op) {
      NodeFrame(env, s, op);
      NodeOpKeepsNodes(env, s, op);
    } else {
      TacFrame(env, s, op);
    }
  }

  lemma StepKeepsReplay(env: Env, s: Ledger, op: Op)
    requires A.RemovalsReplay(s)
    ensures A.RemovalsReplay(Step(env, s, op))
  {
    if op.Remove? {
      A.RemoveKeepsReplay(s, op.node, op.purge);
    } else if op.RestoreNode? {
      A.RestoreKeepsReplay(s, op.node);
    } else {
      OtherStepsKeepReplay(env, s, op);
    }
  }

  lemma OtherStepsKeepReplay(env: Env, s: Ledger, op: Op)
    requires !op.Remove? && !op.RestoreNode?
    ensures var t := Step(env, s, op);
            t.removed == s.removed && t.removals == s.removals && s.nodes.Keys <= t.nodes.Keys
  {
    EveryOpIsOne(op);
    if op.Send? {
      SendFrame(env, s, op);
    } else if MovesRows(op) {
      RowFrame(env, s, op);
    } else if op.Register? {
      RegisterFrame(env, s, op);
      R.RegisterKeepsNodes(s, op.reg);
    } else if IsTacOp(op) {
      TacFrame(env, s, op);
    }
  }

  lemma StepKeepsIdentified(env: Env, s: Ledger, op: Op)
    requires T.Identified(env, s) && Enabled(s, op)
    ensures T.Identified(env, Step(env, s, op))
  {
    if op.CreateTac? {
      T.CreateKeepsIdentified(env, s, op.name, op.description, op.minted);
    } else if op.RenameTac? {
      T.RenameKeepsIdentified(env, s, op.tac, op.name);
    } else {
      OtherStepsKeepNames(env, s, op);
    }
  }

  /** No other step touches the id, name or key of a tac, or the log of names. */
  lemma OtherStepsKeepNames(env: Env, s: Ledger, op: Op)
    requires !op.CreateTac? && !op.RenameTac?
    ensures Step(env, s, op).tacs.Keys == s.tacs.Keys && Step(env, s, op).nameChanges == s.nameChanges
    ensures forall t :: t in s.tacs
                        ==> Step(env, s, op).tacs[t].name == s.tacs[t].name
                            && Step(env, s, op).tacs[t].key == s.tacs[t].key
  {
    EveryOpIsOne(op);
    if op.Send? {
      SendFrame(env, s, op);
    } else if MovesRows(op) {
      RowFrame(env, s, op);
    } else if IsNodeOp(op) {
      NodeFrame(env, s, op);
    } else if op.Register? {
      RegisterFrame(env, s, op);
    }
  }

  lemma StepKeepsInv(env: Env, s: Ledger, op: Op)
    requires Inv(env, s) && Enabled(s, op)
    ensures Inv(env, Step(env, s, op))
  {
    StepKeepsMail(env, s, op);
    StepKeepsRoutes(env, s, op);
    StepKeepsReplay(env, s, op);
    StepKeepsIdentified(env, s, op);
  }

  /** Every state of every run satisfies every invariant. */
  lemma {:induction false} EveryStateIsGood(env: Env, states: seq<Ledger>, ops: seq<Op>, k: nat)
    requires IsRun(env, states, ops) && k < |states|
    ensures Inv(env, states[k])
  {
    if k > 0 {
      EveryStateIsGood(env, states, ops, k - 1);
      assert StepAt(env, states, ops, k - 1);
      StepKeepsInv(env, states[k - 1], ops[k - 1]);
    }
  }

  lemma RunMovesTable(env: Env, states: seq<Ledger>, ops: seq<Op>, k: nat)
    requires IsRun(env, states, ops) && k < |ops|
    ensures TableStep(states[k].deliveries, states[k + 1].deliveries)
  {
    assert StepAt(env, states, ops, k);
    StepMovesTable(env, states[k], ops[k]);
  }
}
