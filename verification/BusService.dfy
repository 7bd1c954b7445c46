/** The bus itself: the tables as fields, the operations as methods that update them in place. */
module BusService {
  import opened Tables
  import opened Identifiers
  import opened Deliveries
  import opened BusRuns
  import opened Claiming
  import R = Registration
  import S = Sending
  import A = Admin
  import T = Tacs

  class Bus {
    const env: Env
    var nodes: map<string, Node>
    var removed: set<string>
    var messages: seq<Message>
    var deliveries: seq<Delivery>
    var routes: map<string, Route>
    var tacs: map<string, Tac>
    var members: set<(string, string)>
    var removals: seq<Removal>
    var rotations: seq<Rotation>
    var nameChanges: seq<NameChange>

    ghost function Abs(): Ledger
      reads this
    {
      Ledger(nodes, removed, messages, deliveries, routes, tacs, members, removals, rotations, nameChanges)
    }

    constructor (env: Env)
      ensures Abs() == EMPTY && this.env == env
    {
      this.env := env;
      nodes, removed, messages, deliveries, routes := map[], {}, [], [], map[];
      tacs, members, removals, rotations, nameChanges := map[], {}, [], [], [];
    }

    predicate IsRemoved(node: string)
      reads this
    {
      node in removed
    }

    // ─── registration and administration ────────────────────────

    method Register(a: R.Registration) returns (refusal: Option<R.Refusal>)
      modifies this
      ensures Abs() == R.Register(old(Abs()), a)
      ensures refusal == R.Refused(old(Abs()), a)
    {
      if !IsSafeNodeId(a.node) { return Some(R.UnsafeName); }
      if a.autoEnter == R.Junk { return Some(R.AutoEnterNotBoolean); }
      if IsRemoved(a.node) { return Some(R.RemovedNode); }
      if a.node in nodes && nodes[a.node].bootAt > a.now { return Some(R.NewerInstance); }
      var full := a.adapter != "" && a.target != "" && a.host != "";
      if a.program && (a.adapter != "" || a.target != "" || a.takeRoute == R.On || a.revokeRoute == R.On
                       || a.verified == R.On) {
        return Some(R.ProgramWithRoute);
      }
      if a.verified == R.On && !full { return Some(R.ProofWithoutRoute); }
      if a.takeRoute == R.On && !full { return Some(R.TakeWithoutRoute); }
      if a.autoEnter == R.On && !full { return Some(R.AutoEnterWithoutRoute); }
      if a.revokeRoute == R.On {
        if a.revokeAdapter == "" || a.revokeTarget == "" || a.revokeHost == "" {
          return Some(R.IncompleteRejectedRoute);
        }
        if a.adapter != "" || a.target != "" || a.host != "" || a.takeRoute == R.On {
          return Some(R.RevokeWithRoute);
        }
      } else if a.revokeAdapter != "" || a.revokeTarget != "" || a.revokeHost != "" {
        return Some(R.RejectedRouteWithoutRevoke);
      }
      if a.program && a.node in nodes && !nodes[a.node].isProgram { return Some(R.AgentCannotBecomeProgram); }
      refusal := RegisterRoute(a);
    }

    /** The part of the transaction that depends on the stored routes. */
    method RegisterRoute(a: R.Registration) returns (refusal: Option<R.Refusal>)
      modifies this`nodes, this`routes
      ensures refusal == RouteRefusal(old(Abs()), a)
      ensures refusal.Some? ==> nodes == old(nodes) && routes == old(routes)
      ensures refusal.None? ==> nodes == old(nodes)[a.node := R.NodeAfter(old(Abs()), a)]
                                && routes == R.RoutesAfter(old(Abs()), a)
    {
      ghost var s := Abs();
      var enter, owners := a.autoEnter == R.On, {};
      if R.HasRoute(a) {
        var same := a.node in routes && routes[a.node].active && R.PlaceOf(routes[a.node]) == R.Asked(a);
        if a.node in routes && routes[a.node].verified && a.verified != R.On && !same { return Some(R.NeedsProof); }
        if a.autoEnter == R.Unset { enter := same && routes[a.node].autoEnter; }
        owners := set n | n in routes && n != a.node && routes[n].active && routes[n].host == a.host
                  && routes[n].target == a.target;
        if owners != {} && a.takeRoute != R.On { return Some(R.RouteOwned); }
      }
      WriteNode(a);
      WriteRoute(a, enter, owners, s);
      return None;
    }

    method WriteNode(a: R.Registration)
      modifies this`nodes
      ensures nodes == old(nodes)[a.node := R.NodeAfter(old(Abs()), a)]
    {
      if a.node in nodes {
        var n := nodes[a.node];
        var key := if n.pubkey.Some? then n.pubkey else a.pubkey;
        nodes := nodes[a.node := n.(isProgram := a.program, bootAt := a.now, pubkey := key)];
      } else {
        nodes := nodes[a.node := Node(a.program, a.pubkey, a.now, None)];
      }
    }

    method WriteRoute(a: R.Registration, enter: bool, owners: set<string>, ghost s: Ledger)
      requires s.routes == routes
      requires R.HasRoute(a) ==> owners == R.Owners(s, a) && enter == R.AutoEnterAfter(s, a)
      modifies this`routes
      ensures routes == R.RoutesAfter(s, a)
    {
      if R.HasRoute(a) {
        var proven := R.MarksProof(a) || (a.node in routes && routes[a.node].verified);
        routes := map n | n in routes :: if n in owners then routes[n].(active := false) else routes[n];
        assert routes == R.Revoked(s.routes, R.Owners(s, a));
        routes := routes[a.node := Route(a.adapter, a.target, a.host, proven, enter, true)];
      } else {
        if a.program && a.adapter == "" {
          routes := map n | n in routes :: if n == a.node then routes[n].(active := false) else routes[n];
          assert routes == R.Revoked(s.routes, {a.node});
        }
        if a.autoEnter == R.Off && a.node in routes && routes[a.node].active {
          routes := routes[a.node := routes[a.node].(autoEnter := false)];
        }
      }
    }

    method RotateKey(node: string, key: string) returns (reply: A.Reply)
      modifies this
      ensures (Abs(), reply) == A.Rotate(old(Abs()), node, key)
      ensures nodes.Keys == old(nodes).Keys
      ensures forall n :: n in old(nodes) && A.Chained(A.RotationsOf(old(rotations), n), old(nodes)[n].pubkey)
                          ==> n in nodes && A.Chained(A.RotationsOf(rotations, n), nodes[n].pubkey)
    {
      ChainsGoOn(Abs(), node, key);
      if key == "" || !A.IsKey(key) { return A.BadKey; }
      if node !in nodes { return A.NodeMissing; }
      var was := nodes[node].pubkey;
      if was == Some(key) { return A.SameKey; }
      nodes := nodes[node := nodes[node].(pubkey := Some(key))];
      rotations := rotations + [Rotation(node, was, key)];
      return A.Ok;
    }

    method RemoveNode(node: string, purge: bool) returns (reply: A.Reply)
      modifies this
      ensures (Abs(), reply) == A.Remove(old(Abs()), node, purge)
      ensures A.RemovalsReplay(old(Abs())) ==> A.RemovalsReplay(Abs())
    {
      if A.RemovalsReplay(Abs()) { A.RemoveKeepsReplay(Abs(), node, purge); }
      if node == "" || node !in nodes { return A.NodeMissing; }
      var sent := exists m :: m in messages && m.sender == node;
      var received := exists d :: d in deliveries && d.recipient == node;
      if purge {
        if sent || received || node in routes { return A.Reply.HasHistory; }
        removed := removed - {node};
        nodes := nodes - {node};
        removals := removals + [Removal(node, Purge)];
      } else {
        removed := removed + {node};
        removals := removals + [Removal(node, Soft)];
      }
      return A.Ok;
    }

    method RestoreNode(node: string) returns (reply: A.Reply)
      modifies this
      ensures (Abs(), reply) == A.RestoreNode(old(Abs()), node)
      ensures A.RemovalsReplay(old(Abs())) ==> A.RemovalsReplay(Abs())
    {
      if A.RemovalsReplay(Abs()) { A.RestoreKeepsReplay(Abs(), node); }
      if node == "" { return A.NodeMissing; }
      if !IsRemoved(node) { return if node in nodes then A.AlreadyActive else A.NodeMissing; }
      removed := removed - {node};
      removals := removals + [Removal(node, Restore)];
      return A.Ok;
    }

    // ─── tacs ────────────────────────────────────────────────────

    method CreateTac(name: string, description: Option<string>, minted: string) returns (reply: T.Reply)
      requires IsCanonicalUuid(minted) && minted !in tacs
      modifies this
      ensures (Abs(), reply) == T.Create(env, old(Abs()), name, description, minted)
      ensures T.Identified(env, old(Abs())) ==> T.Identified(env, Abs()) && reply != T.NotConverted
    {
      if T.Identified(env, Abs()) { T.CreateKeepsIdentified(env, Abs(), name, description, minted); }
      if !env.nameOk(name) { return T.NameInvalid; }
      var display := env.strip(name);
      var key := env.fold(display);
      if exists t :: t in tacs && !IsCanonicalUuid(t) { return T.NotConverted; }
      if display in nodes { return T.NameIsNode; }
      var holders := set t | t in tacs && tacs[t].key == key;
      assert holders == T.Holders(Abs(), key);
      if holders != {} { return T.NameTaken; }
      ghost var before := tacs;
      tacs := tacs[minted := Tac(display, key, None, None)];
      tacs := tacs[minted := tacs[minted].(description := description)];
      assert tacs == before[minted := Tac(display, key, description, None)];
      return T.Ok;
    }

    method RenameTac(tac: string, name: string) returns (reply: T.Reply)
      modifies this
      ensures (Abs(), reply) == T.Rename(env, old(Abs()), tac, name)
      ensures T.Identified(env, old(Abs())) ==> T.Identified(env, Abs()) && tacs.Keys == old(tacs).Keys
    {
      if T.Identified(env, Abs()) { T.RenameKeepsIdentified(env, Abs(), tac, name); }
      if exists t :: t in tacs && !IsCanonicalUuid(t) { return T.NotConverted; }
      if !IsCanonicalUuid(tac) { return T.IdInvalid; }
      if !env.nameOk(name) { return T.NameInvalid; }
      var display := env.strip(name);
      var key := env.fold(display);
      if tac !in tacs { return T.NotFound; }
      var was := tacs[tac].name;
      if display in nodes { return T.NameIsNode; }
      if exists t :: t in tacs && t != tac && tacs[t].key == key { return T.NameTaken; }
      tacs := tacs[tac := tacs[tac].(name := display, key := key)];
      if was != display {
        nameChanges := nameChanges + [NameChange(tac, was, display)];
      }
      return T.Ok;
    }

    method CloseTac(tac: string, summary: Option<string>, actor: Option<string>, now: int) returns (reply: T.Reply)
      modifies this
      ensures (Abs(), reply) == T.Close(old(Abs()), tac, summary, actor, now)
    {
      if !IsCanonicalUuid(tac) && tac !in tacs { return T.IdInvalid; }
      if tac in tacs && tacs[tac].closed.None? {
        tacs := tacs[tac := tacs[tac].(closed := Some(Closing(now, summary, actor)))];
        return T.Ok;
      }
      return if tac in tacs then T.AlreadyClosed else T.NotFound;
    }

    // ─── sending ─────────────────────────────────────────────────

    method Send(l: S.Letter) returns (reply: S.Reply)
      requires S.WellFormed(Abs())
      modifies this
      ensures (Abs(), reply) == S.Send(env, old(Abs()), l)
    {
      var refusal, to := PassGates(l);
      if refusal.Some? {
        return S.Refused(refusal.value);
      }
      reply := Store(l, to);
    }

    /** Every check before the transaction, and the resolved recipients. */
    method PassGates(l: S.Letter) returns (refusal: Option<S.Refusal>, to: seq<string>)
      ensures refusal == S.Gate(Abs(), l)
      ensures refusal.None? ==> to == S.Valid(Abs(), l)
    {
      to := [];
      if !l.payloadOk { return Some(S.BadPayload), to; }
      if l.expires.Malformed? { return Some(S.MalformedExpiry), to; }
      if l.sender !in nodes { return Some(S.UnregisteredSender), to; }
      if IsRemoved(l.sender) { return Some(S.RemovedSender), to; }
      if l.broadcast && S.Given(l.tac) { return Some(S.BroadcastAndTac), to; }
      var recipients := if l.broadcast then l.listing else l.recipients;
      if S.Given(l.tac) {
        refusal := PassTac(l.sender, l.tac.value);
        if refusal.Some? { return refusal, to; }
        recipients := l.listing;
        if recipients == [] { return Some(S.NoOtherMembers), to; }
      }
      if recipients == ["all"] {
        recipients := l.roster;
      }
      assert recipients == S.Addressed(l);
      var programs;
      programs, to := Resolve(recipients);
      if programs { return Some(S.ProgramRecipient), to; }
      if to == [] { return Some(S.NoValidRecipients), to; }
      if !S.Given(l.tac) && !l.broadcast && !nodes[l.sender].isProgram {
        var blocked := BlockedBy(l.sender, to);
        if blocked != [] { return Some(S.UnreadFromRecipient(blocked)), to; }
      }
      return None, to;
    }

    /** The tac is known, open, and its mail to the sender has been opened. */
    method PassTac(sender: string, tac: string) returns (refusal: Option<S.Refusal>)
      ensures refusal == if !T.Designates(Abs(), tac) then Some(S.TacIdInvalid)
                         else if tac !in tacs then Some(S.NoSuchTac)
                         else if tacs[tac].closed.Some? then Some(S.TacClosed)
                         else if S.UnopenedInTac(Abs(), sender, tac) then Some(S.UnreadInTac)
                         else None
    {
      if !IsCanonicalUuid(tac) && tac !in tacs { return Some(S.TacIdInvalid); }
      if tac !in tacs { return Some(S.NoSuchTac); }
      if tacs[tac].closed.Some? { return Some(S.TacClosed); }
      if exists i :: 0 <= i < |deliveries| && deliveries[i].recipient == sender
                     && Open(deliveries[i]) && InTac(messages, deliveries[i].mid, tac) {
        return Some(S.UnreadInTac);
      }
      return None;
    }

    /** The active recipients, and whether one of them is a program. */
    method Resolve(recipients: seq<string>) returns (programs: bool, to: seq<string>)
      ensures programs <==> exists n :: n in recipients && S.Active(Abs(), n) && S.IsProgram(Abs(), n)
      ensures to == S.ActiveAmong(Abs(), recipients)
    {
      programs, to := false, [];
      var i := 0;
      while i < |recipients|
        invariant i <= |recipients|
        invariant programs <==> exists n :: n in recipients[..i] && S.Active(Abs(), n) && S.IsProgram(Abs(), n)
        invariant to == S.ActiveAmong(Abs(), recipients[..i])
      {
        var n := recipients[i];
        assert recipients[..i + 1] == recipients[..i] + [n];
        if n in nodes && !IsRemoved(n) {
          programs := programs || nodes[n].isProgram;
          to := to + [n];
        }
        i := i + 1;
      }
      assert recipients[..i] == recipients;
    }

    /** The recipients whose own direct mail the sender has not opened yet. */
    method BlockedBy(sender: string, to: seq<string>) returns (blocked: seq<string>)
      ensures blocked == S.BlockersAmong(Abs(), sender, to)
    {
      blocked := [];
      var i := 0;
      while i < |to|
        invariant i <= |to| && blocked == S.BlockersAmong(Abs(), sender, to[..i])
      {
        assert to[..i + 1][..i] == to[..i];
        if exists k :: 0 <= k < |deliveries| && deliveries[k].recipient == sender
                       && Open(deliveries[k]) && S.DirectFrom(messages, deliveries[k].mid, to[i]) {
          blocked := blocked + [to[i]];
        }
        i := i + 1;
      }
      assert to[..i] == to;
    }

    /** One transaction: the message, then a delivery per recipient, or a rollback. */
    method Store(l: S.Letter, to: seq<string>) returns (reply: S.Reply)
      requires S.WellFormed(Abs()) && to == S.Valid(Abs(), l)
      modifies this
      ensures (Abs(), reply) == S.Transaction(env, old(Abs()), l)
    {
      var m := S.Envelope(env, messages, l);
      if !S.KnownPriority(m.priority) { return S.Raised; }
      if Find(messages, m.id).Some? {
        var stored := Find(messages, m.id).value;
        return if S.SameLetter(stored, m) && S.RecipientsOf(deliveries, m.id) == multiset(to)
          then S.Resent(m.id) else S.Conflict(m.id);
      }
      if m.replyTo.Some? && m.replyTo.value != m.id && Find(messages, m.replyTo.value).None? { return S.Raised; }
      var messages0, deliveries0 := messages, deliveries;
      messages := messages + [m];
      var ok := InsertRows(m.id, to);
      if !ok {
        messages, deliveries := messages0, deliveries0;
        return S.Conflict(m.id);
      }
      return S.Stored(m.id, to);
    }

    /** One INSERT per recipient of a message that has no delivery yet, until the unique
        constraint refuses one. */
    method InsertRows(mid: string, to: seq<string>) returns (ok: bool)
      requires forall k :: 0 <= k < |deliveries| ==> deliveries[k].mid != mid
      modifies this`deliveries
      ensures ok <==> S.Distinct(to)
      ensures ok ==> deliveries == old(deliveries) + S.Rows(mid, to)
    {
      ghost var before := deliveries;
      var i := 0;
      while i < |to|
        invariant i <= |to| && S.Distinct(to[..i]) && deliveries == before + S.Rows(mid, to[..i])
      {
        if exists k :: 0 <= k < |deliveries| && IsRow(deliveries[k], to[i], mid) {
          RepeatedName(before, mid, to, i);
          return false;
        }
        FreshName(before, mid, to, i);
        deliveries := deliveries + [Delivery(mid, to[i], Accepted, 0, None, None)];
        assert S.Rows(mid, to[..i + 1]) == S.Rows(mid, to[..i]) + [Delivery(mid, to[i], Accepted, 0, None, None)];
        i := i + 1;
      }
      assert to[..i] == to;
      ok := true;
    }

    // ─── taking mail ─────────────────────────────────────────────

    /** The first transaction of claim_new: expired leases back to ACCEPTED, then DEAD. */
    method ResetLeases(node: string, now: int)
      modifies this`deliveries
      ensures deliveries == Deliveries.Reset(old(deliveries), node, now)
    {
      ghost var before := deliveries;
      deliveries := MapRows(deliveries, (i: nat, d: Delivery) => if d.recipient == node then ExpireRow(d, now) else d);
      deliveries := MapRows(deliveries, (i: nat, d: Delivery) => if d.recipient == node then BuryRow(d) else d);
      assert deliveries == Deliveries.Reset(before, node, now);
    }

    /** One turn of that loop: the envelope is validated, then one conditional update. */
    method TakeRow(r: Row, c: Caller) returns (bad: bool, won: bool)
      requires r.state.Accepted?
      modifies this`deliveries
      ensures bad == Bad(env, r.message, c.now).Some?
      ensures won == (!bad && StillAccepted(old(deliveries), r.did))
      ensures deliveries == Apply(env, old(deliveries), r, c)
    {
      bad := Bad(env, r.message, c.now).Some?;
      won := !bad && StillAccepted(deliveries, r.did);
      if bad {
        deliveries := Deliveries.Quarantine(deliveries, r.did);
      } else {
        deliveries := Deliveries.Claim(deliveries, r.did, c.lease, c.claimant);
      }
    }

    /** The loop of claim_new over its snapshot, which may be older than the table. */
    method TakeRows(rows: seq<Row>, c: Caller) returns (out: seq<Row>, quarantined: seq<Row>, lost: seq<Row>)
      requires forall r :: r in rows ==> r.state.Accepted?
      modifies this`deliveries
      ensures deliveries == Settle(env, old(deliveries), rows, c)
      ensures out == Won(env, old(deliveries), rows, c) && quarantined == Sealed(env, rows, c)
      ensures lost == Lost(env, old(deliveries), rows, c)
    {
      out, quarantined, lost := [], [], [];
      ghost var before := deliveries;
      var i := 0;
      while i < |rows|
        invariant i <= |rows| && deliveries == Settle(env, before, rows[..i], c)
        invariant out == Won(env, before, rows[..i], c) && quarantined == Sealed(env, rows[..i], c)
        invariant lost == Lost(env, before, rows[..i], c)
      {
        assert rows[i] in rows && rows[..i + 1][..i] == rows[..i];
        var bad, won := TakeRow(rows[i], c);
        if bad {
          quarantined := quarantined + [rows[i]];
        } else if won {
          out := out + [rows[i]];
        } else {
          lost := lost + [rows[i]];
        }
        i := i + 1;
      }
      assert rows[..i] == rows;
    }

    /** claim_new. `rows` is the answer of its query, taken after the reset: rows of this node, each
        with its message, that were ACCEPTED then, though the table may have moved on since. */
    method ClaimNew(node: string, rows: seq<Row>, c: Caller)
        returns (out: seq<Row>, quarantined: seq<Row>, lost: seq<Row>)
      requires Answers(deliveries, messages, node, rows) && forall r :: r in rows ==> r.state.Accepted?
      modifies this`deliveries
      ensures |deliveries| == |old(deliveries)|
      ensures forall k :: 0 <= k < |deliveries| && old(deliveries)[k].recipient != node
                          ==> deliveries[k] == old(deliveries)[k]
      ensures forall r :: r in out ==>
                && IsAnswer(deliveries, messages, node, r)
                && deliveries[r.did - 1].state.Claimed? && deliveries[r.did - 1].claimedBy == Some(c.claimant)
      ensures IsRemoved(node) ==> deliveries == old(deliveries) && out == quarantined == lost == []
      ensures !IsRemoved(node) ==>
                && deliveries == Settle(env, Deliveries.Reset(old(deliveries), node, c.now), rows, c)
                && out == Won(env, Deliveries.Reset(old(deliveries), node, c.now), rows, c)
                && quarantined == Sealed(env, rows, c)
                && lost == Lost(env, Deliveries.Reset(old(deliveries), node, c.now), rows, c)
    {
      if IsRemoved(node) {
        return [], [], [];
      }
      ResetLeases(node, c.now);
      ResetKeepsAnswers(old(deliveries), messages, node, rows, c.now);
      ghost var ds := deliveries;
      out, quarantined, lost := TakeRows(rows, c);
      SettleLeavesOthers(env, ds, messages, node, rows, c);
      forall r | r in out
        ensures IsAnswer(deliveries, messages, node, r)
                && deliveries[r.did - 1].state.Claimed? && deliveries[r.did - 1].claimedBy == Some(c.claimant)
      {
        WonIsOwnMail(env, ds, messages, node, rows, c, r);
      }
    }

    /** One row of reopen_unread, and whether its body is shown. */
    method OpenRow(r: Row, c: Caller) returns (shown: seq<Opened>, body: bool)
      modifies this`deliveries
      ensures deliveries == Apply(env, old(deliveries), r, c) && shown == Shown(env, old(deliveries), r, c)
      ensures body <==> shown != [] && Bad(env, r.message, c.now).None?
    {
      if Bad(env, r.message, c.now).Some? {
        if r.state.Accepted? {
          deliveries := Deliveries.Quarantine(deliveries, r.did);
        }
        return [Opened(r.did, r.state, None)], false;
      }
      var state := r.state;
      if r.state.Accepted? {
        var won := StillAccepted(deliveries, r.did);
        deliveries := Deliveries.Claim(deliveries, r.did, c.lease, c.claimant);
        if !won {
          return [], false;
        }
        state := Claimed;
      }
      return [Opened(r.did, state, Some(r.message.body))], true;
    }

    /** The loop of reopen_unread; `seen` says how many of its rows it looked at. */
    method OpenRows(rows: seq<Row>, limit: int, c: Caller) returns (out: seq<Opened>, ghost seen: nat)
      modifies this`deliveries
      ensures StopsAfter(env, old(deliveries), rows, c, seen, limit)
      ensures deliveries == Settle(env, old(deliveries), rows[..seen], c)
      ensures out == OpenedOf(env, old(deliveries), rows[..seen], c)
    {
      out := [];
      ghost var before := deliveries;
      var i := 0;
      while i < |rows|
        invariant i <= |rows| && deliveries == Settle(env, before, rows[..i], c)
        invariant out == OpenedOf(env, before, rows[..i], c)
        invariant Unfilled(env, before, rows, c, i, limit)
      {
        ghost var ds := deliveries;
        var shown, body := OpenRow(rows[i], c);
        LoopOnce(env, before, rows, c, i, limit, ds, out, shown);
        out := out + shown;
        i := i + 1;
        if body && |out| >= limit {
          break;
        }
      }
      seen := i;
    }

    /** reopen_unread. `rows` is the answer of its query: unread rows of this node, each with its
        message. A negative limit does not bound the query. */
    method ReopenUnread(node: string, rows: seq<Row>, limit: int, c: Caller) returns (out: seq<Opened>, ghost seen: nat)
      requires Answers(deliveries, messages, node, rows) && (limit >= 0 ==> |rows| <= limit)
      requires forall r :: r in rows ==> r.state.Accepted? || r.state.Claimed? || r.state.Injected?
      modifies this`deliveries
      ensures StopsAfter(env, old(deliveries), rows, c, seen, limit) && (limit >= 0 ==> seen == |rows|)
      ensures deliveries == Settle(env, old(deliveries), rows[..seen], c)
      ensures out == OpenedOf(env, old(deliveries), rows[..seen], c)
      ensures forall k :: 0 <= k < |deliveries| && old(deliveries)[k].recipient != node
                          ==> deliveries[k] == old(deliveries)[k]
      ensures forall o :: o in out ==> ShowsOwnMail(old(deliveries), messages, node, o)
    {
      ghost var before := deliveries;
      out, seen := OpenRows(rows, limit, c);
      FirstRowsAnswer(before, messages, node, rows, seen);
      SettleLeavesOthers(env, before, messages, node, rows[..seen], c);
      forall o | o in out ensures ShowsOwnMail(before, messages, node, o) {
        OpenedIsOwnMail(env, before, messages, node, rows[..seen], c, o);
      }
      if 0 < seen < |rows| {
        PageNeverCut(env, before, rows, c, seen - 1, limit);
      }
    }

    // ─── moving mail on ──────────────────────────────────────────

    method MarkInjected(node: string, mids: seq<string>)
      modifies this`deliveries
      ensures deliveries == Deliveries.MarkInjected(old(deliveries), node, mids)
    {
      ghost var before := deliveries;
      var k := 0;
      while k < |mids|
        invariant k <= |mids| && deliveries == Deliveries.MarkInjected(before, node, mids[..k])
      {
        deliveries := MapRows(deliveries, (i: nat, d: Delivery) =>
          if d.recipient == node && d.mid == mids[k] && d.state.Accepted?
          then d.(state := Injected, attempts := d.attempts + 1) else d);
        forall i | 0 <= i < |before| ensures deliveries[i] == MarkInjectedRow(before[i], node, mids[..k + 1]) {
          assert mids[..k + 1] == mids[..k] + [mids[k]];
        }
        k := k + 1;
      }
      assert mids[..k] == mids;
    }

    method InjectByDid(node: string, dids: seq<nat>) returns (n: nat)
      modifies this`deliveries
      ensures deliveries == Deliveries.Inject(old(deliveries), node, dids)
      ensures n == |Changed(old(deliveries), deliveries)|
    {
      ghost var before := deliveries;
      n := 0;
      var k := 0;
      while k < |dids|
        invariant k <= |dids| && deliveries == Deliveries.Inject(before, node, dids[..k])
        invariant n == |Changed(before, deliveries)|
      {
        InjectOneMore(before, node, dids, k);
        var moved := InjectOne(node, dids[k], before);
        n := n + if moved then 1 else 0;
        k := k + 1;
      }
      assert dids[..k] == dids;
    }

    method InjectOne(node: string, did: nat, ghost before: seq<Delivery>) returns (moved: bool)
      requires |before| == |deliveries|
               && (InjectMatches(deliveries, node, did) ==> deliveries[did - 1] == before[did - 1])
      modifies this`deliveries
      ensures moved == InjectMatches(old(deliveries), node, did)
      ensures deliveries ==
              if moved then old(deliveries)[did - 1 := old(deliveries)[did - 1].(state := Injected)]
              else old(deliveries)
      ensures |Changed(before, deliveries)| == |Changed(before, old(deliveries))| + if moved then 1 else 0
    {
      moved := InjectMatches(deliveries, node, did);
      if moved {
        ChangeOne(before, deliveries, did - 1, deliveries[did - 1].(state := Injected));
        deliveries := deliveries[did - 1 := deliveries[did - 1].(state := Injected)];
      }
    }

    method Acknowledge(node: string, mid: string, target: DeliveryState) returns (reply: AckReply)
      requires S.WellFormed(Abs())
      modifies this`deliveries
      ensures deliveries == Deliveries.Ack(old(deliveries), node, mid, target)
      ensures reply == AckOutcome(old(deliveries), node, mid, target)
    {
      ghost var before := deliveries;
      if AllowedFrom(target).None? { return UnknownState; }
      var row := RowAt(deliveries, node, mid);
      if row.None? { return NoRow; }
      var current := deliveries[row.value].state;
      OnlyRow(Abs(), node, mid, row.value);
      if current == target { return AlreadyThere; }
      if AllowedFrom(target) != Some(current) { return CannotMove; }
      deliveries := MapRows(deliveries, (i: nat, d: Delivery) =>
        if IsRow(d, node, mid) then d.(state := target) else d);
      assert deliveries == Deliveries.Ack(before, node, mid, target);
      return Moved;
    }

    /** bus_tac_mark_read: nothing for an empty selection, otherwise one UPDATE and its rowcount. */
    method MarkTacRead(node: string, tac: string, ids: Option<seq<string>>) returns (n: nat)
      modifies this`deliveries
      ensures |deliveries| == |old(deliveries)|
      ensures forall i :: 0 <= i < |deliveries| ==>
                deliveries[i] == if CatchUpMatches(old(deliveries)[i], node, messages, tac, ids)
                                 then old(deliveries)[i].(state := Injected) else old(deliveries)[i]
      ensures n == |Caught(old(deliveries), node, messages, tac, ids)|
      ensures deliveries == Deliveries.CatchUp(old(deliveries), node, messages, tac, ids)
    {
      if ids == Some([]) {
        NothingCaught(deliveries, node, messages, tac);
        return 0;
      }
      ghost var before := deliveries;
      deliveries, n := CatchUpRows(deliveries, node, messages, tac, ids);
      CaughtUp(before, deliveries, node, messages, tac, ids);
    }
  }

  /** The UPDATE of bus_tac_mark_read, row by row, counting the rows it touches. */
  method CatchUpRows(ds: seq<Delivery>, node: string, ms: seq<Message>, tac: string, ids: Option<seq<string>>)
    returns (es: seq<Delivery>, n: nat)
    ensures |es| == |ds|
    ensures forall i :: 0 <= i < |ds| ==>
              es[i] == if CatchUpMatches(ds[i], node, ms, tac, ids) then ds[i].(state := Injected) else ds[i]
    ensures n == |Caught(ds, node, ms, tac, ids)|
  {
    es, n := [], 0;
    var i := 0;
    while i < |ds|
      invariant i <= |ds| && |es| == i && n == |Caught(ds[..i], node, ms, tac, ids)|
      invariant forall k :: 0 <= k < i ==>
                  es[k] == if CatchUpMatches(ds[k], node, ms, tac, ids) then ds[k].(state := Injected) else ds[k]
    {
      CaughtMore(ds, node, ms, tac, ids, i);
      var hit := CatchUpMatches(ds[i], node, ms, tac, ids);
      es := es + [if hit then ds[i].(state := Injected) else ds[i]];
      n := n + if hit then 1 else 0;
      i := i + 1;
    }
    assert ds[..i] == ds;
  }

  /** The two checks a registration makes against the stored routes. */
  function RouteRefusal(s: Ledger, a: R.Registration): Option<R.Refusal> {
    if R.HasRoute(a) && a.node in s.routes && s.routes[a.node].verified && a.verified != R.On && !R.SameActive(s, a)
    then Some(R.NeedsProof)
    else if R.HasRoute(a) && R.Owners(s, a) != {} && a.takeRoute != R.On then Some(R.RouteOwned)
    else None
  }

  lemma ChainsGoOn(s: Ledger, node: string, key: string)
    ensures var t := A.Rotate(s, node, key).0;
            forall n :: n in s.nodes && A.Chained(A.RotationsOf(s.rotations, n), s.nodes[n].pubkey)
                        ==> n in t.nodes && A.Chained(A.RotationsOf(t.rotations, n), t.nodes[n].pubkey)
  {
    var t := A.Rotate(s, node, key).0;
    forall n | n in s.nodes && A.Chained(A.RotationsOf(s.rotations, n), s.nodes[n].pubkey)
      ensures n in t.nodes && A.Chained(A.RotationsOf(t.rotations, n), t.nodes[n].pubkey)
    {
      A.RotateExtendsChain(s, node, key, n);
    }
  }

  lemma FirstRowsAnswer(ds: seq<Delivery>, ms: seq<Message>, node: string, rows: seq<Row>, k: nat)
    requires Answers(ds, ms, node, rows) && k <= |rows|
    ensures Answers(ds, ms, node, rows[..k])
  {
  }

  /** The rows a catch-up names. */
  function Caught(ds: seq<Delivery>, node: string, ms: seq<Message>, tac: string, ids: Option<seq<string>>): set<nat> {
    set i: nat | i < |ds| && CatchUpMatches(ds[i], node, ms, tac, ids)
  }

  lemma NothingCaught(ds: seq<Delivery>, node: string, ms: seq<Message>, tac: string)
    ensures Caught(ds, node, ms, tac, Some([])) == {} && Deliveries.CatchUp(ds, node, ms, tac, Some([])) == ds
    ensures forall i :: 0 <= i < |ds| ==> !CatchUpMatches(ds[i], node, ms, tac, Some([]))
  {
  }

  lemma CaughtUp(ds: seq<Delivery>, es: seq<Delivery>, node: string, ms: seq<Message>, tac: string,
        ids: Option<seq<string>>)
    requires |es| == |ds| && forall k :: 0 <= k < |ds| ==> es[k] == CatchUpRow(ds[k], node, ms, tac, ids)
    ensures es == Deliveries.CatchUp(ds, node, ms, tac, ids)
  {
  }

  lemma CaughtMore(ds: seq<Delivery>, node: string, ms: seq<Message>, tac: string, ids: Option<seq<string>>, i: nat)
    requires i < |ds|
    ensures |Caught(ds[..i + 1], node, ms, tac, ids)| ==
              |Caught(ds[..i], node, ms, tac, ids)| + if CatchUpMatches(ds[i], node, ms, tac, ids) then 1 else 0
  {
    var hit: set<nat> := if CatchUpMatches(ds[i], node, ms, tac, ids) then {i} else {};
    assert Caught(ds[..i + 1], node, ms, tac, ids) == Caught(ds[..i], node, ms, tac, ids) + hit;
  }

  // ─── small facts the methods use ──────────────────────────────

  /** rowcount: the rows a statement changed. */
  function Changed(ds: seq<Delivery>, es: seq<Delivery>): set<nat>
    requires |es| == |ds|
  {
    set i: nat | i < |ds| && es[i] != ds[i]
  }

  /** WHERE id=? AND recipient_id=? AND state='CLAIMED' */
  predicate InjectMatches(ds: seq<Delivery>, node: string, did: nat) {
    1 <= did <= |ds| && ds[did - 1].recipient == node && ds[did - 1].state.Claimed?
  }

  lemma InjectOneMore(ds: seq<Delivery>, node: string, dids: seq<nat>, k: nat)
    requires k < |dids|
    ensures var es := Deliveries.Inject(ds, node, dids[..k]);
            && (InjectMatches(es, node, dids[k]) ==> es[dids[k] - 1] == ds[dids[k] - 1])
            && Deliveries.Inject(ds, node, dids[..k + 1]) ==
                 if InjectMatches(es, node, dids[k]) then es[dids[k] - 1 := es[dids[k] - 1].(state := Injected)] else es
  {
    assert dids[..k + 1] == dids[..k] + [dids[k]];
  }

  lemma ChangeOne(ds: seq<Delivery>, es: seq<Delivery>, i: nat, d: Delivery)
    requires |es| == |ds| && i < |ds| && es[i] == ds[i] && d != ds[i]
    ensures |Changed(ds, es[i := d])| == |Changed(ds, es)| + 1
  {
    assert Changed(ds, es[i := d]) == Changed(ds, es) + {i};
  }

  datatype AckReply = UnknownState | NoRow | AlreadyThere | CannotMove | Moved

  function RowAt(ds: seq<Delivery>, node: string, mid: string): (r: Option<nat>)
    ensures r.Some? ==> r.value < |ds| && IsRow(ds[r.value], node, mid)
    ensures r.None? ==> forall i :: 0 <= i < |ds| ==> !IsRow(ds[i], node, mid)
  {
    if ds == [] then None
    else if IsRow(ds[|ds| - 1], node, mid) then Some(|ds| - 1)
    else RowAt(ds[..|ds| - 1], node, mid)
  }

  function AckOutcome(ds: seq<Delivery>, node: string, mid: string, target: DeliveryState): AckReply {
    var row := RowAt(ds, node, mid);
    if AllowedFrom(target).None? then UnknownState
    else if row.None? then NoRow
    else if ds[row.value].state == target then AlreadyThere
    else if AllowedFrom(target) != Some(ds[row.value].state) then CannotMove
    else Moved
  }

  lemma OnlyRow(s: Ledger, node: string, mid: string, k: nat)
    requires S.WellFormed(s) && k < |s.deliveries| && IsRow(s.deliveries[k], node, mid)
    ensures forall i :: 0 <= i < |s.deliveries| && IsRow(s.deliveries[i], node, mid) ==> i == k
  {
  }

  lemma RepeatedName(ds: seq<Delivery>, mid: string, to: seq<string>, i: nat)
    requires i < |to| && forall k :: 0 <= k < |ds| ==> ds[k].mid != mid
    requires exists k :: 0 <= k < |ds + S.Rows(mid, to[..i])| && IsRow((ds + S.Rows(mid, to[..i]))[k], to[i], mid)
    ensures !S.Distinct(to)
  {
    var k :| 0 <= k < |ds + S.Rows(mid, to[..i])| && IsRow((ds + S.Rows(mid, to[..i]))[k], to[i], mid);
    assert k >= |ds|;
    assert to[k - |ds|] == to[i];
  }

  lemma FreshName(ds: seq<Delivery>, mid: string, to: seq<string>, i: nat)
    requires i < |to| && S.Distinct(to[..i])
    requires !exists k :: 0 <= k < |ds + S.Rows(mid, to[..i])| && IsRow((ds + S.Rows(mid, to[..i]))[k], to[i], mid)
    ensures S.Distinct(to[..i + 1])
  {
    forall j | 0 <= j < i ensures to[j] != to[i] {
      assert (ds + S.Rows(mid, to[..i]))[|ds| + j] == Delivery(mid, to[j], Accepted, 0, None, None);
    }
  }
}
