/** Calls that overlap. A call reads, and later commits one transaction that carries what it read;
    any number of other transactions may commit in between. Nothing is assumed about when each of a
    call's reads took place, and only the one that ends up in the ledger is assumed to have been
    true then. */
module Overlaps {
  import opened Tables
  import opened Identifiers
  import opened Deliveries
  import opened BusRuns
  import opened Races
  import A = Admin
  import H = AuditHistory
  import M = MailHistory
  import R = Registration
  import S = Sending
  import T = Tacs

  /** One transaction. What the call had read before is among the arguments. */
  datatype Write =
    | PutNode(reg: R.Registration)
    | PutKey(node: string, seen: Option<string>, key: string)
    | PutRemoved(node: string)
    | DropNode(node: string)
    | PutRestored(node: string)
    | Insert(m: Message, to: seq<string>)
    | PutState(node: string, mid: string, target: DeliveryState)
    | PutTac(tac: string, name: string, description: Option<string>)
    | PutName(tac: string, before: string, name: string)
    | PutMember(tac: string, node: string)
    | Single(op: Op)

  /** The calls whose one statement carries its own condition. */
  predicate IsSingle(op: Op) {
    op.Snooze? || op.CloseTac? || op.RemoveMember? || (MovesRows(op) && !op.Ack?)
  }

  /** The UPDATE of bus_ack on the whole table. */
  function Overwritten(ds: seq<Delivery>, node: string, mid: string, target: DeliveryState): seq<Delivery> {
    MapRows(ds, (i, d) => if IsRow(d, node, mid) then Overwrite(d, target) else d)
  }

  /** The transaction at s. Where a key, a unique index or a foreign key refuses it, nothing is
      written. */
  function Commit(env: Env, s: Ledger, w: Write): Ledger {
    match w
    case PutNode(a) => R.Transact(s, a)
    case PutKey(node, seen, key) => A.Rekeyed(s, node, seen, key)
    case PutRemoved(node) => A.Logged(s, node, Soft)
    case DropNode(node) => if A.HasTraces(s, node) then s else A.Purged(s, node)
    case PutRestored(node) => A.Logged(s, node, Restore)
    case Insert(m, to) => if Accepts(s, m, to) then S.Append(s, m, to) else s
    case PutState(node, mid, target) => s.(deliveries := Overwritten(s.deliveries, node, mid, target))
    case PutTac(tac, name, d) =>
      if tac in s.tacs || T.Holders(s, env.fold(name)) != {} then s
      else s.(tacs := s.tacs[tac := Tac(name, env.fold(name), d, None)])
    case PutName(tac, before, name) =>
      if tac in s.tacs && T.TakenByOther(s, env.fold(name), tac) then s
      else T.Renamed(s, tac, before, name, env.fold(name))
    case PutMember(tac, node) => s.(members := s.members + {(tac, node)})
    case Single(op) => Step(env, s, op)
  }

  /** What a call goes on to commit whose reads were all made at s; nothing if they refuse. */
  function Prepared(env: Env, s: Ledger, op: Op): Option<Write> {
    match op
    case Register(a) => if R.RefusedOutside(s, a).Some? then None else Some(PutNode(a))
    case Rotate(node, key) =>
      if A.Rotate(s, node, key).1.Ok? then Some(PutKey(node, s.nodes[node].pubkey, key)) else None
    case Remove(node, purge) =>
      if !A.Remove(s, node, purge).1.Ok? then None else Some(if purge then DropNode(node) else PutRemoved(node))
    case RestoreNode(node) => if A.RestoreNode(s, node).1.Ok? then Some(PutRestored(node)) else None
    case Send(l) => if S.Gate(s, l).Some? then None else Some(Insert(S.Envelope(env, s.messages, l), S.Valid(s, l)))
    case Ack(node, mid, target) => if MayAck(s, node, mid, target) then Some(PutState(node, mid, target)) else None
    case CreateTac(name, d, minted) =>
      if T.Create(env, s, name, d, minted).1.Ok? then Some(PutTac(minted, env.strip(name), d)) else None
    case RenameTac(tac, name) =>
      if T.Rename(env, s, tac, name).1.Ok? then Some(PutName(tac, s.tacs[tac].name, env.strip(name))) else None
    case AddMember(tac, node) => if T.AddMember(s, tac, node).1.Ok? then Some(PutMember(tac, node)) else None
    case _ => Some(Single(op))
  }

  /** Some row of this node and message is in the state the target is reached from. */
  predicate MayAck(s: Ledger, node: string, mid: string, target: DeliveryState) {
    exists i :: 0 <= i < |s.deliveries| && IsRow(s.deliveries[i], node, mid)
                && AllowedFrom(target) == Some(s.deliveries[i].state)
  }

  /** What one SELECT of the call must have answered for it to commit this. */
  predicate ReadAt(s: Ledger, w: Write) {
    match w
    case PutKey(node, seen, _) => node in s.nodes && s.nodes[node].pubkey == seen
    case PutRemoved(node) => node in s.nodes
    case DropNode(node) => node in s.nodes
    case PutState(node, mid, target) => MayAck(s, node, mid, target)
    case PutName(tac, before, _) => tac in s.tacs && s.tacs[tac].name == before
    case _ => true
  }

  /** What a call makes sure of without the ledger. */
  predicate Sensible(w: Write) {
    match w
    case PutNode(a) => R.BadArguments(a).None?
    case Insert(m, _) => m.id != "" && m.thread != ""
    case PutState(_, _, target) => AllowedFrom(target).Some?
    case PutTac(tac, _, _) => IsCanonicalUuid(tac)
    case Single(op) => IsSingle(op)
    case _ => true
  }

  /** What a call commits is one of these. */
  lemma PreparedIs(env: Env, s: Ledger, op: Op)
    requires S.WellFormed(s) && Enabled(s, op) && Prepared(env, s, op).Some?
    ensures Sensible(Prepared(env, s, op).value) && ReadAt(s, Prepared(env, s, op).value)
  {
    if op.Send? { ThreadIsSome(s, op.letter); }
  }

  lemma ThreadIsSome(s: Ledger, l: S.Letter)
    requires S.Supplied(s, l)
    ensures S.MessageId(l) != "" && S.Thread(s.messages, l) != ""
  {
  }

  /** With nothing in between, the call is the atomic step. */
  ghost predicate Splits(env: Env, s: Ledger, op: Op) {
    Step(env, s, op) == if Prepared(env, s, op).Some? then Commit(env, s, Prepared(env, s, op).value) else s
  }

  lemma NodeCallsSplit(env: Env, s: Ledger, op: Op)
    requires op.Register? || op.Rotate? || op.Remove? || op.RestoreNode?
    ensures Splits(env, s, op)
  {
    if op.Remove? {
      RemovalSplits(env, s, op);
    } else if op.Register? {
      RegistrationSplits(env, s, op);
    }
  }

  lemma RegistrationSplits(env: Env, s: Ledger, op: Op)
    requires op.Register?
    ensures Splits(env, s, op)
  {
  }

  lemma RemovalSplits(env: Env, s: Ledger, op: Op)
    requires op.Remove?
    ensures Splits(env, s, op)
  {
  }

  lemma TacCallsSplit(env: Env, s: Ledger, op: Op)
    requires (op.CreateTac? && op.minted !in s.tacs) || op.RenameTac? || op.AddMember?
    ensures Splits(env, s, op)
  {
    if op.CreateTac? {
      CreationSplits(env, s, op);
    } else if op.RenameTac? {
      RenameSplits(env, s, op);
    }
  }

  lemma CreationSplits(env: Env, s: Ledger, op: Op)
    requires op.CreateTac? && op.minted !in s.tacs
    ensures Splits(env, s, op)
  {
  }

  lemma RenameSplits(env: Env, s: Ledger, op: Op)
    requires op.RenameTac?
    ensures Splits(env, s, op)
  {
  }

  lemma SendSplits(env: Env, s: Ledger, op: Op)
    requires S.WellFormed(s) && op.Send?
    ensures Splits(env, s, op)
  {
  }

  lemma SendIs(env: Env, s: Ledger, l: S.Letter)
    requires S.Gate(s, l).None?
    ensures Prepared(env, s, Send(l)) == Some(Insert(S.Envelope(env, s.messages, l), S.Valid(s, l)))
  {
  }

  lemma InsertIs(env: Env, t: Ledger, m: Message, to: seq<string>)
    requires Accepts(t, m, to)
    ensures Commit(env, t, Insert(m, to)) == S.Append(t, m, to)
  {
  }

  lemma AckIs(env: Env, s: Ledger, node: string, mid: string, target: DeliveryState)
    ensures var op := Ack(node, mid, target);
            && Step(env, s, op) == s.(deliveries := Deliveries.Ack(s.deliveries, node, mid, target))
            && Prepared(env, s, op) == if MayAck(s, node, mid, target) then Some(PutState(node, mid, target)) else None
  {
  }

  lemma AckSplits(env: Env, s: Ledger, op: Op)
    requires S.WellFormed(s) && op.Ack?
    ensures Splits(env, s, op)
  {
    AckAtOnce(env, s, op.node, op.mid, op.target);
    AckIs(env, s, op.node, op.mid, op.target);
  }

  lemma AtOnce(env: Env, s: Ledger, op: Op)
    requires S.WellFormed(s) && Enabled(s, op)
    ensures Splits(env, s, op)
  {
    match op
    case Ack(_, _, _) => AckSplits(env, s, op);
    case Send(_) => SendSplits(env, s, op);
    case Register(_) => NodeCallsSplit(env, s, op);
    case Rotate(_, _) => NodeCallsSplit(env, s, op);
    case Remove(_, _) => NodeCallsSplit(env, s, op);
    case RestoreNode(_) => NodeCallsSplit(env, s, op);
    case CreateTac(_, _, _) => TacCallsSplit(env, s, op);
    case RenameTac(_, _) => TacCallsSplit(env, s, op);
    case AddMember(_, _) => TacCallsSplit(env, s, op);
    case _ =>
  }

  lemma AckAtOnce(env: Env, s: Ledger, node: string, mid: string, target: DeliveryState)
    requires S.WellFormed(s)
    ensures Deliveries.Ack(s.deliveries, node, mid, target) ==
              if MayAck(s, node, mid, target) then Overwritten(s.deliveries, node, mid, target) else s.deliveries
  {
  }

  // ─── runs of overlapping calls ────────────────────────────────

  ghost predicate WasRead(states: seq<Ledger>, k: nat, w: Write) {
    exists j: nat :: j <= k < |states| && ReadAt(states[j], w)
  }

  ghost predicate CommitAt(env: Env, states: seq<Ledger>, ws: seq<Write>, k: nat)
    requires k < |ws| && |states| == |ws| + 1
  {
    Sensible(ws[k]) && WasRead(states, k, ws[k]) && states[k + 1] == Commit(env, states[k], ws[k])
  }

  /** Any transactions in any order, each carrying what was true when its call looked, then or
      earlier. */
  ghost predicate IsOverlap(env: Env, states: seq<Ledger>, ws: seq<Write>) {
    && |states| == |ws| + 1
    && states[0] == EMPTY
    && forall k: nat :: k < |ws| ==> CommitAt(env, states, ws, k)
  }

  // ─── what every transaction keeps, whatever came between ──────

  predicate IsNodeWrite(w: Write) {
    w.PutNode? || w.PutKey? || w.PutRemoved? || w.DropNode? || w.PutRestored?
  }

  predicate IsTacWrite(w: Write) {
    w.PutTac? || w.PutName? || w.PutMember?
  }

  lemma NodeWriteFrame(env: Env, s: Ledger, w: Write)
    requires IsNodeWrite(w)
    ensures var t := Commit(env, s, w);
            t == s.(nodes := t.nodes, removed := t.removed, routes := t.routes, removals := t.removals,
                rotations := t.rotations)
  {
  }

  lemma TacWriteFrame(env: Env, s: Ledger, w: Write)
    requires IsTacWrite(w)
    ensures var t := Commit(env, s, w); t == s.(tacs := t.tacs, members := t.members, nameChanges := t.nameChanges)
  {
  }

  /** The same deliveries, and none of them newly unopened. */
  ghost predicate Alike(ds: seq<Delivery>, es: seq<Delivery>) {
    |es| == |ds| && forall i :: 0 <= i < |ds| ==>
      es[i].mid == ds[i].mid && es[i].recipient == ds[i].recipient && (Open(es[i]) ==> Open(ds[i]))
      && (Sane(ds[i]) ==> Sane(es[i]))
  }

  lemma OverwrittenAlike(ds: seq<Delivery>, node: string, mid: string, target: DeliveryState)
    requires AllowedFrom(target).Some?
    ensures Alike(ds, Overwritten(ds, node, mid, target))
  {
  }

  /** A single statement touches delivery rows, or a snooze, a closing or a membership. */
  lemma SingleFrame(env: Env, s: Ledger, op: Op)
    requires IsSingle(op) && AllSane(s)
    ensures var t := Step(env, s, op);
            && Alike(s.deliveries, t.deliveries)
            && t == s.(nodes := t.nodes, deliveries := t.deliveries, tacs := t.tacs, members := t.members)
            && t.nodes.Keys == s.nodes.Keys
            && (forall n :: n in s.nodes ==> t.nodes[n].isProgram == s.nodes[n].isProgram
                                             && t.nodes[n].pubkey == s.nodes[n].pubkey)
            && t.tacs.Keys == s.tacs.Keys
            && (forall x :: x in s.tacs ==> t.tacs[x].name == s.tacs[x].name && t.tacs[x].key == s.tacs[x].key)
  {
    if MovesRows(op) {
      RowFrame(env, s, op);
      StepMovesTable(env, s, op);
      MovedAlike(s.deliveries, Step(env, s, op).deliveries);
    } else if op.Snooze? {
      NodeFrame(env, s, op);
    } else {
      TacFrame(env, s, op);
    }
  }

  lemma MovedAlike(ds: seq<Delivery>, es: seq<Delivery>)
    requires TableStep(ds, es) && |es| == |ds| && forall i :: 0 <= i < |ds| ==> Sane(ds[i])
    ensures Alike(ds, es)
  {
    forall i | 0 <= i < |ds|
      ensures es[i].mid == ds[i].mid && es[i].recipient == ds[i].recipient && (Open(es[i]) ==> Open(ds[i]))
              && Sane(es[i])
    {
      RowStepFacts(ds[i], es[i]);
    }
  }

  lemma AlikeKeepsTables(s: Ledger, t: Ledger)
    requires S.WellFormed(s) && t.messages == s.messages && Alike(s.deliveries, t.deliveries)
             && s.nodes.Keys <= t.nodes.Keys
    ensures S.WellFormed(t)
  {
  }

  lemma InsertKeepsTables(s: Ledger, m: Message, to: seq<string>)
    requires S.WellFormed(s) && Accepts(s, m, to) && m.id != "" && m.thread != ""
    ensures S.WellFormed(S.Append(s, m, to))
  {
    S.AppendKeepsTables(s.messages, s.deliveries, m, to);
  }

  lemma NodesStay(env: Env, s: Ledger, w: Write, n: string)
    requires IsNodeWrite(w) && n in s.nodes && A.HasTraces(s, n)
    ensures n in Commit(env, s, w).nodes
  {
  }

  lemma NodeWriteKeepsTables(env: Env, s: Ledger, w: Write)
    requires S.WellFormed(s) && IsNodeWrite(w)
    ensures S.WellFormed(Commit(env, s, w))
  {
    var t := Commit(env, s, w);
    NodeWriteFrame(env, s, w);
    forall i | 0 <= i < |s.messages| ensures s.messages[i].sender in t.nodes {
      NodesStay(env, s, w, s.messages[i].sender);
    }
    forall i | 0 <= i < |s.deliveries| ensures s.deliveries[i].recipient in t.nodes {
      NodesStay(env, s, w, s.deliveries[i].recipient);
    }
  }

  lemma CommitKeepsTables(env: Env, s: Ledger, w: Write)
    requires S.WellFormed(s) && AllSane(s) && Sensible(w)
    ensures S.WellFormed(Commit(env, s, w))
  {
    if IsNodeWrite(w) {
      NodeWriteKeepsTables(env, s, w);
    } else if IsTacWrite(w) {
      TacWriteFrame(env, s, w);
    } else {
      match w
      case Insert(m, to) => if Accepts(s, m, to) { InsertKeepsTables(s, m, to); }
      case PutState(node, mid, target) =>
        OverwrittenAlike(s.deliveries, node, mid, target);
        AlikeKeepsTables(s, Commit(env, s, w));
      case Single(op) =>
        SingleFrame(env, s, op);
        AlikeKeepsTables(s, Commit(env, s, w));
      case _ =>
    }
  }

  lemma CommitKeepsSane(env: Env, s: Ledger, w: Write)
    requires AllSane(s) && Sensible(w)
    ensures AllSane(Commit(env, s, w))
  {
    if IsNodeWrite(w) {
      NodeWriteFrame(env, s, w);
    } else if IsTacWrite(w) {
      TacWriteFrame(env, s, w);
    } else if w.Single? {
      SingleFrame(env, s, w.op);
    }
  }

  lemma CommitKeepsRoutes(env: Env, s: Ledger, w: Write)
    requires AllSane(s) && Sensible(w) && R.ExclusiveRoutes(s.routes) && R.RoutesHaveAgents(s)
    ensures R.ExclusiveRoutes(Commit(env, s, w).routes) && R.RoutesHaveAgents(Commit(env, s, w))
  {
    match w
    case PutNode(a) => R.TransactKeepsExclusive(s, a); R.TransactKeepsAgents(s, a);
    case Single(op) => SingleFrame(env, s, op);
    case PutTac(_, _, _) => TacWriteFrame(env, s, w);
    case PutName(_, _, _) => TacWriteFrame(env, s, w);
    case _ =>
  }

  lemma CommitKeepsLog(env: Env, s: Ledger, w: Write)
    requires AllSane(s) && Sensible(w) && A.LogTells(s)
    ensures A.LogTells(Commit(env, s, w))
  {
    match w
    case PutRemoved(node) => A.LoggedTells(s, node, Soft);
    case DropNode(node) => A.LoggedTells(s, node, Purge);
    case PutRestored(node) => A.LoggedTells(s, node, Restore);
    case PutTac(_, _, _) => TacWriteFrame(env, s, w);
    case PutName(_, _, _) => TacWriteFrame(env, s, w);
    case Single(op) => SingleFrame(env, s, op);
    case _ =>
  }

  lemma NameKeepsIdentified(env: Env, s: Ledger, w: Write)
    requires T.Identified(env, s) && Sensible(w) && w.PutName?
    ensures T.Identified(env, Commit(env, s, w))
  {
    var t := Commit(env, s, w);
    if w.tac in s.tacs && !T.TakenByOther(s, env.fold(w.name), w.tac) {
      assert forall u :: u in s.tacs && u != w.tac ==> t.tacs[u] == s.tacs[u] && s.tacs[u].key != env.fold(w.name);
    }
  }

  lemma TacKeepsIdentified(env: Env, s: Ledger, w: Write)
    requires T.Identified(env, s) && Sensible(w) && w.PutTac?
    ensures T.Identified(env, Commit(env, s, w))
  {
    assert forall u :: u in s.tacs && s.tacs[u].key == env.fold(w.name) ==> u in T.Holders(s, env.fold(w.name));
  }

  lemma CommitKeepsIdentified(env: Env, s: Ledger, w: Write)
    requires AllSane(s) && Sensible(w) && T.Identified(env, s)
    ensures T.Identified(env, Commit(env, s, w))
  {
    match w
    case PutTac(_, _, _) => TacKeepsIdentified(env, s, w);
    case PutName(_, _, _) => NameKeepsIdentified(env, s, w);
    case Single(op) => SingleFrame(env, s, op);
    case _ => if IsNodeWrite(w) { NodeWriteFrame(env, s, w); }
  }

  /** What no interleaving breaks. */
  ghost predicate Sound(env: Env, s: Ledger) {
    && S.WellFormed(s) && AllSane(s)
    && R.ExclusiveRoutes(s.routes) && R.RoutesHaveAgents(s)
    && A.LogTells(s)
    && T.Identified(env, s)
  }

  lemma CommitKeepsSound(env: Env, s: Ledger, w: Write)
    requires Sound(env, s) && Sensible(w)
    ensures Sound(env, Commit(env, s, w))
  {
    CommitKeepsTables(env, s, w);
    CommitKeepsSane(env, s, w);
    CommitKeepsRoutes(env, s, w);
    CommitKeepsLog(env, s, w);
    CommitKeepsIdentified(env, s, w);
  }

  lemma {:induction false} EveryOverlapIsSound(env: Env, states: seq<Ledger>, ws: seq<Write>, k: nat)
    requires IsOverlap(env, states, ws) && k < |states|
    ensures Sound(env, states[k])
  {
    if k > 0 {
      EveryOverlapIsSound(env, states, ws, k - 1);
      assert CommitAt(env, states, ws, k - 1);
      CommitKeepsSound(env, states[k - 1], ws[k - 1]);
    }
  }

  lemma OverlapIsSane(env: Env, states: seq<Ledger>, ws: seq<Write>, k: nat)
    requires IsOverlap(env, states, ws) && k < |states|
    ensures AllSane(states[k]) && UniqueIds(states[k].messages)
  {
    EveryOverlapIsSound(env, states, ws, k);
  }

  // ─── what survives exactly when the call was in time ──────────

  /** The tac gate would still pass. */
  predicate HeardInTime(s: Ledger, w: Write) {
    w.Insert? && Accepts(s, w.m, w.to) && S.Given(w.m.tac) ==> !S.UnopenedInTac(s, w.m.sender, w.m.tac.value)
  }

  /** No addressee's direct mail lies unopened with the sender. */
  predicate UnblockedInTime(s: Ledger, w: Write) {
    w.Insert? && Accepts(s, w.m, w.to) && w.m.tac.None? && !w.m.broadcast
    ==> forall n :: n in w.to && n != w.m.sender ==> !S.UnopenedFrom(s, w.m.sender, n)
  }

  /** No addressee has become a program. */
  predicate AgentsInTime(s: Ledger, w: Write) {
    w.Insert? && Accepts(s, w.m, w.to) ==> forall n :: n in w.to ==> !S.IsProgram(s, n)
  }

  /** The tac has not been closed. */
  predicate OpenInTime(s: Ledger, w: Write) {
    w.Insert? && Accepts(s, w.m, w.to) && w.m.tac.Some? && w.m.tac.value in s.tacs
    ==> s.tacs[w.m.tac.value].closed.None?
  }

  /** The node to be removed has not been purged. */
  predicate NodeInTime(s: Ledger, w: Write) {
    w.PutRemoved? ==> w.node in s.nodes
  }

  /** The row has not gone past the target. */
  predicate AckInTime(s: Ledger, w: Write) {
    w.PutState? ==> forall i :: 0 <= i < |s.deliveries| && IsRow(s.deliveries[i], w.node, w.mid)
                                ==> NotPast(s.deliveries[i], w.target)
  }

  lemma OthersLeaveMessages(env: Env, s: Ledger, w: Write)
    requires AllSane(s) && Sensible(w) && !w.Insert?
    ensures Commit(env, s, w).messages == s.messages && Alike(s.deliveries, Commit(env, s, w).deliveries)
  {
    match w
    case PutState(node, mid, target) => OverwrittenAlike(s.deliveries, node, mid, target);
    case Single(op) => SingleFrame(env, s, op);
    case _ => if IsNodeWrite(w) { NodeWriteFrame(env, s, w); } else { TacWriteFrame(env, s, w); }
  }

  lemma AlikeKeepsListening(s: Ledger, t: Ledger)
    requires S.ListenedFirst(s) && t.messages == s.messages && Alike(s.deliveries, t.deliveries)
    ensures S.ListenedFirst(t)
  {
  }

  lemma AlikeKeepsUnblocked(s: Ledger, t: Ledger)
    requires S.NoMutualBlock(s) && t.messages == s.messages && Alike(s.deliveries, t.deliveries)
    ensures S.NoMutualBlock(t)
  {
    assert forall a, b :: S.UnopenedFrom(t, a, b) ==> S.UnopenedFrom(s, a, b);
  }

  lemma CommitAndListening(env: Env, s: Ledger, w: Write)
    requires Sound(env, s) && Sensible(w) && S.ListenedFirst(s)
    ensures S.ListenedFirst(Commit(env, s, w)) <==> HeardInTime(s, w)
  {
    if w.Insert? {
      if Accepts(s, w.m, w.to) { LateInsertAndListening(s, w.m, w.to); }
    } else {
      OthersLeaveMessages(env, s, w);
      AlikeKeepsListening(s, Commit(env, s, w));
    }
  }

  lemma IndirectKeepsUnblocked(s: Ledger, m: Message, to: seq<string>)
    requires S.WellFormed(s) && S.NoMutualBlock(s) && Find(s.messages, m.id).None? && (m.tac.Some? || m.broadcast)
    ensures S.NoMutualBlock(S.Append(s, m, to))
  {
    forall a, b | a != b && S.UnopenedFrom(S.Append(s, m, to), a, b) ensures !S.UnopenedFrom(S.Append(s, m, to), b, a) {
      S.UnopenedAfterAppend(s, m, to, a, b);
      if S.UnopenedFrom(S.Append(s, m, to), b, a) { S.UnopenedAfterAppend(s, m, to, b, a); }
    }
  }

  lemma CommitAndBlocking(env: Env, s: Ledger, w: Write)
    requires Sound(env, s) && Sensible(w) && S.NoMutualBlock(s)
    ensures S.NoMutualBlock(Commit(env, s, w)) <==> UnblockedInTime(s, w)
  {
    if w.Insert? {
      if Accepts(s, w.m, w.to) {
        if w.m.tac.None? && !w.m.broadcast {
          LateInsertAndBlocking(s, w.m, w.to);
        } else {
          IndirectKeepsUnblocked(s, w.m, w.to);
        }
      }
    } else {
      OthersLeaveMessages(env, s, w);
      AlikeKeepsUnblocked(s, Commit(env, s, w));
    }
  }

  /** No node with mail becomes a program. */
  lemma ReceiversStayAgents(env: Env, s: Ledger, w: Write, n: string)
    requires AllSane(s) && Sensible(w) && !w.Insert? && n in s.nodes && !s.nodes[n].isProgram
    ensures !S.IsProgram(Commit(env, s, w), n)
  {
    match w
    case PutNode(a) => R.TransactKeepsNodes(s, a);
    case Single(op) => SingleFrame(env, s, op);
    case _ => if IsTacWrite(w) { TacWriteFrame(env, s, w); }
  }

  lemma OthersKeepProgramsOut(env: Env, s: Ledger, w: Write)
    requires Sound(env, s) && Sensible(w) && S.ProgramsReceiveNothing(s) && !w.Insert?
    ensures S.ProgramsReceiveNothing(Commit(env, s, w))
  {
    OthersLeaveMessages(env, s, w);
    forall i | 0 <= i < |s.deliveries| ensures !S.IsProgram(Commit(env, s, w), s.deliveries[i].recipient) {
      ReceiversStayAgents(env, s, w, s.deliveries[i].recipient);
    }
  }

  lemma CommitAndPrograms(env: Env, s: Ledger, w: Write)
    requires Sound(env, s) && Sensible(w) && S.ProgramsReceiveNothing(s)
    ensures S.ProgramsReceiveNothing(Commit(env, s, w)) <==> AgentsInTime(s, w)
  {
    if w.Insert? {
      if Accepts(s, w.m, w.to) { LateInsertAndPrograms(s, w.m, w.to); }
    } else {
      OthersKeepProgramsOut(env, s, w);
    }
  }

  lemma CommitAndClosing(env: Env, s: Ledger, w: Write)
    requires Sound(env, s) && Sensible(w)
    ensures ClosedStay(s, Commit(env, s, w)) <==> OpenInTime(s, w)
  {
    if w.Insert? {
      if Accepts(s, w.m, w.to) { LateInsertAndClosing(s, w.m, w.to); }
    } else {
      OthersLeaveMessages(env, s, w);
    }
  }

  lemma CommitAndRemoved(env: Env, s: Ledger, w: Write)
    requires Sound(env, s) && Sensible(w) && A.RemovedAreNodes(s)
    ensures A.RemovedAreNodes(Commit(env, s, w)) <==> NodeInTime(s, w)
  {
    match w
    case PutNode(a) => R.TransactKeepsNodes(s, a);
    case Single(op) => SingleFrame(env, s, op);
    case _ => if IsTacWrite(w) { TacWriteFrame(env, s, w); }
  }

  lemma CommitAndRows(env: Env, s: Ledger, w: Write)
    requires AllSane(s) && Sensible(w)
    ensures TableStep(s.deliveries, Commit(env, s, w).deliveries) <==> AckInTime(s, w)
  {
    match w
    case PutState(node, mid, target) => OverwriteMoves(s.deliveries, node, mid, target);
    case Single(op) => StepMovesTable(env, s, op);
    case Insert(_, _) =>
    case _ => if IsNodeWrite(w) { NodeWriteFrame(env, s, w); } else { TacWriteFrame(env, s, w); }
  }

  lemma OverwriteMoves(ds: seq<Delivery>, node: string, mid: string, target: DeliveryState)
    requires AllowedFrom(target).Some? && forall i :: 0 <= i < |ds| ==> Sane(ds[i])
    ensures TableStep(ds, Overwritten(ds, node, mid, target)) <==>
              forall i :: 0 <= i < |ds| && IsRow(ds[i], node, mid) ==> NotPast(ds[i], target)
  {
    var es := Overwritten(ds, node, mid, target);
    forall i | 0 <= i < |ds| ensures RowStep(ds[i], es[i]) <==> (IsRow(ds[i], node, mid) ==> NotPast(ds[i], target)) {
    }
    if TableStep(ds, es) {
      assert forall i :: 0 <= i < |ds| ==> RowStep(ds[i], es[i]);
    }
  }

  /** A property that each step keeps exactly when it is in time holds throughout exactly when all
      steps are. */
  lemma {:induction false} Throughout(good: seq<bool>, timely: seq<bool>, m: nat, n: nat)
    requires m <= n < |good| && n <= |timely| && good[m]
    requires forall k: nat :: m <= k < n && good[k] ==> (good[k + 1] <==> timely[k])
    ensures (forall k :: m <= k <= n ==> good[k]) <==> (forall k :: m <= k < n ==> timely[k])
  {
    if m < n {
      Throughout(good, timely, m, n - 1);
      assert good[n - 1] ==> (good[n - 1 + 1] <==> timely[n - 1]);
    }
  }

  /** The same for a property of states, kept by each step exactly when its transaction is in time. */
  lemma Survives(states: seq<Ledger>, ws: seq<Write>, n: nat, kept: Ledger -> bool, timely: (Ledger, Write) -> bool)
    requires n < |states| == |ws| + 1 && kept(states[0])
    requires forall k: nat :: k < n && kept(states[k]) ==> (kept(states[k + 1]) <==> timely(states[k], ws[k]))
    ensures (forall k :: 0 <= k <= n ==> kept(states[k])) <==> (forall k :: 0 <= k < n ==> timely(states[k], ws[k]))
  {
    var good := seq(|states|, i requires 0 <= i < |states| => kept(states[i]));
    var onTime := seq(|ws|, i requires 0 <= i < |ws| => timely(states[i], ws[i]));
    Throughout(good, onTime, 0, n);
    assert forall k :: 0 <= k <= n ==> good[k] == kept(states[k]);
    assert forall k :: 0 <= k < n ==> onTime[k] == timely(states[k], ws[k]);
  }

  /** In any run of overlapping calls, listening order holds throughout exactly when every message
      was inserted while its sender's tac gate would still pass; and so on for each property that
      a call checks before its transaction. */
  lemma ListeningSurvives(env: Env, states: seq<Ledger>, ws: seq<Write>, n: nat)
    requires IsOverlap(env, states, ws) && n < |states|
    ensures (forall k :: 0 <= k <= n ==> S.ListenedFirst(states[k]))
            <==> (forall k :: 0 <= k < n ==> HeardInTime(states[k], ws[k]))
  {
    forall k: nat | k < n && S.ListenedFirst(states[k])
      ensures S.ListenedFirst(states[k + 1]) <==> HeardInTime(states[k], ws[k])
    {
      ListeningSurvivesOnce(env, states, ws, k);
    }
    Survives(states, ws, n, S.ListenedFirst, HeardInTime);
  }

  lemma ListeningSurvivesOnce(env: Env, states: seq<Ledger>, ws: seq<Write>, k: nat)
    requires IsOverlap(env, states, ws) && k < |ws| && S.ListenedFirst(states[k])
    ensures S.ListenedFirst(states[k + 1]) <==> HeardInTime(states[k], ws[k])
  {
    EveryOverlapIsSound(env, states, ws, k);
    assert CommitAt(env, states, ws, k);
    CommitAndListening(env, states[k], ws[k]);
  }

  lemma UnblockedSurvives(env: Env, states: seq<Ledger>, ws: seq<Write>, n: nat)
    requires IsOverlap(env, states, ws) && n < |states|
    ensures (forall k :: 0 <= k <= n ==> S.NoMutualBlock(states[k]))
            <==> (forall k :: 0 <= k < n ==> UnblockedInTime(states[k], ws[k]))
  {
    forall k: nat | k < n && S.NoMutualBlock(states[k])
      ensures S.NoMutualBlock(states[k + 1]) <==> UnblockedInTime(states[k], ws[k])
    {
      UnblockedSurvivesOnce(env, states, ws, k);
    }
    Survives(states, ws, n, S.NoMutualBlock, UnblockedInTime);
  }

  lemma UnblockedSurvivesOnce(env: Env, states: seq<Ledger>, ws: seq<Write>, k: nat)
    requires IsOverlap(env, states, ws) && k < |ws| && S.NoMutualBlock(states[k])
    ensures S.NoMutualBlock(states[k + 1]) <==> UnblockedInTime(states[k], ws[k])
  {
    EveryOverlapIsSound(env, states, ws, k);
    assert CommitAt(env, states, ws, k);
    CommitAndBlocking(env, states[k], ws[k]);
  }

  lemma ProgramsStayOut(env: Env, states: seq<Ledger>, ws: seq<Write>, n: nat)
    requires IsOverlap(env, states, ws) && n < |states|
    ensures (forall k :: 0 <= k <= n ==> S.ProgramsReceiveNothing(states[k]))
            <==> (forall k :: 0 <= k < n ==> AgentsInTime(states[k], ws[k]))
  {
    forall k: nat | k < n && S.ProgramsReceiveNothing(states[k])
      ensures S.ProgramsReceiveNothing(states[k + 1]) <==> AgentsInTime(states[k], ws[k])
    {
      ProgramsStayOutOnce(env, states, ws, k);
    }
    Survives(states, ws, n, S.ProgramsReceiveNothing, AgentsInTime);
  }

  lemma ProgramsStayOutOnce(env: Env, states: seq<Ledger>, ws: seq<Write>, k: nat)
    requires IsOverlap(env, states, ws) && k < |ws| && S.ProgramsReceiveNothing(states[k])
    ensures S.ProgramsReceiveNothing(states[k + 1]) <==> AgentsInTime(states[k], ws[k])
  {
    EveryOverlapIsSound(env, states, ws, k);
    assert CommitAt(env, states, ws, k);
    CommitAndPrograms(env, states[k], ws[k]);
  }

  lemma RemovedStayNodes(env: Env, states: seq<Ledger>, ws: seq<Write>, n: nat)
    requires IsOverlap(env, states, ws) && n < |states|
    ensures (forall k :: 0 <= k <= n ==> A.RemovedAreNodes(states[k]))
            <==> (forall k :: 0 <= k < n ==> NodeInTime(states[k], ws[k]))
  {
    forall k: nat | k < n && A.RemovedAreNodes(states[k])
      ensures A.RemovedAreNodes(states[k + 1]) <==> NodeInTime(states[k], ws[k])
    {
      RemovedStayNodesOnce(env, states, ws, k);
    }
    Survives(states, ws, n, A.RemovedAreNodes, NodeInTime);
  }

  lemma RemovedStayNodesOnce(env: Env, states: seq<Ledger>, ws: seq<Write>, k: nat)
    requires IsOverlap(env, states, ws) && k < |ws| && A.RemovedAreNodes(states[k])
    ensures A.RemovedAreNodes(states[k + 1]) <==> NodeInTime(states[k], ws[k])
  {
    EveryOverlapIsSound(env, states, ws, k);
    assert CommitAt(env, states, ws, k);
    CommitAndRemoved(env, states[k], ws[k]);
  }

  predicate InTime(s: Ledger, w: Write) {
    HeardInTime(s, w) && UnblockedInTime(s, w) && AgentsInTime(s, w) && NodeInTime(s, w)
  }

  lemma CommitAndInv(env: Env, s: Ledger, w: Write)
    requires Inv(env, s) && Sensible(w)
    ensures Inv(env, Commit(env, s, w)) <==> InTime(s, w)
  {
    CommitKeepsSound(env, s, w);
    CommitAndListening(env, s, w);
    CommitAndBlocking(env, s, w);
    CommitAndPrograms(env, s, w);
    CommitAndRemoved(env, s, w);
  }

  /** The whole invariant of the bus holds throughout a run of overlapping calls exactly when every
      transaction was in time. */
  lemma GoodExactlyInTime(env: Env, states: seq<Ledger>, ws: seq<Write>, n: nat)
    requires IsOverlap(env, states, ws) && n < |states|
    ensures (forall k :: 0 <= k <= n ==> Inv(env, states[k])) <==> (forall k :: 0 <= k < n ==> InTime(states[k], ws[k]))
  {
    EmptyIsGood(env);
    forall k: nat | k < n && Inv(env, states[k]) ensures Inv(env, states[k + 1]) <==> InTime(states[k], ws[k]) {
      assert CommitAt(env, states, ws, k);
      CommitAndInv(env, states[k], ws[k]);
    }
    Survives(states, ws, n, s => Inv(env, s), InTime);
  }

  lemma EmptyIsGood(env: Env)
    ensures Inv(env, EMPTY)
  {
    var states, ops := [EMPTY], [];
    assert IsRun(env, states, ops);
    EveryStateIsGood(env, states, ops, 0);
  }

  /** A call with nothing in between is in time, in every respect. */
  lemma AtomicIsInTime(env: Env, s: Ledger, op: Op)
    requires Inv(env, s) && Enabled(s, op) && Prepared(env, s, op).Some?
    ensures var w := Prepared(env, s, op).value; InTime(s, w) && AckInTime(s, w) && OpenInTime(s, w)
  {
    var w, t := Prepared(env, s, op).value, Step(env, s, op);
    PreparedIs(env, s, op);
    assert t == Commit(env, s, w) by { AtOnce(env, s, op); }
    assert Inv(env, t) by { StepKeepsInv(env, s, op); }
    CommitAndInv(env, s, w);
    assert TableStep(s.deliveries, t.deliveries) by { StepMovesTable(env, s, op); }
    CommitAndRows(env, s, w);
    assert ClosedStay(s, t) by { AtomicLeavesClosed(env, s, op); }
    CommitAndClosing(env, s, w);
  }

  lemma AtomicLeavesClosed(env: Env, s: Ledger, op: Op)
    requires T.Identified(env, s)
    ensures ClosedStay(s, Step(env, s, op))
  {
    forall tac | tac in s.tacs && s.tacs[tac].closed.Some?
      ensures forall k :: |s.messages| <= k < |Step(env, s, op).messages|
                          ==> Step(env, s, op).messages[k].tac != Some(tac)
    {
      M.ClosedTacTakesNoMail(env, s, op, tac);
    }
  }

  /** A step moves delivery rows only as a statement may exactly when an acknowledgement comes in
      time, and leaves the messages of closed tacs alone exactly when an insert does. */
  lemma EachCommitExactly(env: Env, states: seq<Ledger>, ws: seq<Write>, k: nat)
    requires IsOverlap(env, states, ws) && k < |ws|
    ensures TableStep(states[k].deliveries, states[k + 1].deliveries) <==> AckInTime(states[k], ws[k])
    ensures ClosedStay(states[k], states[k + 1]) <==> OpenInTime(states[k], ws[k])
  {
    EveryOverlapIsSound(env, states, ws, k);
    assert CommitAt(env, states, ws, k);
    CommitAndRows(env, states[k], ws[k]);
    CommitAndClosing(env, states[k], ws[k]);
  }

  // ─── messages ─────────────────────────────────────────────────

  lemma CommitKeepsLetters(env: Env, s: Ledger, w: Write, mid: string)
    requires Sound(env, s) && Sensible(w) && Find(s.messages, mid).Some?
    ensures S.RecipientsOf(Commit(env, s, w).deliveries, mid) == S.RecipientsOf(s.deliveries, mid)
  {
    if w.Insert? {
      if Accepts(s, w.m, w.to) { M.AppendKeepsRecipients(s, w.m, w.to, mid); }
    } else {
      OthersLeaveMessages(env, s, w);
      M.RecipientsByColumns(s.deliveries, Commit(env, s, w).deliveries, mid);
    }
  }

  lemma LettersStay(env: Env, states: seq<Ledger>, ws: seq<Write>, k: nat, mid: string)
    requires IsOverlap(env, states, ws) && k < |ws| && Find(states[k].messages, mid).Some?
    ensures S.RecipientsOf(states[k + 1].deliveries, mid) == S.RecipientsOf(states[k].deliveries, mid)
  {
    EveryOverlapIsSound(env, states, ws, k);
    assert CommitAt(env, states, ws, k);
    CommitKeepsLetters(env, states[k], ws[k], mid);
  }

  lemma {:induction false} MessagesGrow(env: Env, states: seq<Ledger>, ws: seq<Write>, i: nat, j: nat)
    requires IsOverlap(env, states, ws) && i <= j < |states|
    ensures states[i].messages <= states[j].messages
  {
    if i < j {
      MessagesGrow(env, states, ws, i, j - 1);
      MessagesGrowOnce(env, states, ws, j - 1);
    }
  }

  lemma MessagesGrowOnce(env: Env, states: seq<Ledger>, ws: seq<Write>, k: nat)
    requires IsOverlap(env, states, ws) && k < |ws|
    ensures states[k].messages <= states[k + 1].messages
  {
    OverlapIsSane(env, states, ws, k);
    assert CommitAt(env, states, ws, k);
    CommitExtends(env, states[k], ws[k]);
  }

  lemma CommitExtends(env: Env, s: Ledger, w: Write)
    requires AllSane(s) && Sensible(w)
    ensures s.messages <= Commit(env, s, w).messages
  {
    if !w.Insert? { OthersLeaveMessages(env, s, w); }
  }

  /** However calls overlap, a stored message stays as it is, and so do its recipients. */
  lemma EnvelopesStay(env: Env, states: seq<Ledger>, ws: seq<Write>, i: nat, j: nat, mid: string)
    requires IsOverlap(env, states, ws) && i <= j < |states| && Find(states[i].messages, mid).Some?
    ensures states[i].messages <= states[j].messages && Find(states[j].messages, mid) == Find(states[i].messages, mid)
  {
    MessagesGrow(env, states, ws, i, j);
    OverlapIsSane(env, states, ws, j);
    M.FindStays(states[i].messages, states[j].messages, mid);
  }

  lemma {:induction false} Constant(xs: seq<multiset<string>>, i: nat, j: nat)
    requires i <= j < |xs| && forall k: nat :: i <= k < j ==> xs[k + 1] == xs[k]
    ensures xs[j] == xs[i]
  {
    if i < j { Constant(xs, i, j - 1); }
  }

  lemma RecipientsStay(env: Env, states: seq<Ledger>, ws: seq<Write>, i: nat, j: nat, mid: string)
    requires IsOverlap(env, states, ws) && i <= j < |states| && Find(states[i].messages, mid).Some?
    ensures S.RecipientsOf(states[j].deliveries, mid) == S.RecipientsOf(states[i].deliveries, mid)
  {
    var to := seq(|states|, k requires 0 <= k < |states| => S.RecipientsOf(states[k].deliveries, mid));
    forall k: nat | i <= k < j ensures to[k + 1] == to[k] {
      EnvelopesStay(env, states, ws, i, k, mid);
      LettersStay(env, states, ws, k, mid);
    }
    Constant(to, i, j);
  }
}
