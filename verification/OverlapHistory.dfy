/** The audit logs and the life of a delivery when calls overlap. */
module OverlapHistory {
  import opened Tables
  import opened Deliveries
  import opened BusRuns
  import opened Overlaps
  import opened Races
  import A = Admin
  import H = AuditHistory
  import R = Registration
  import T = Tacs

  // ─── key rotations ────────────────────────────────────────────

  predicate Drops(s: Ledger, w: Write, node: string) {
    w == DropNode(node) && !A.HasTraces(s, node)
  }

  ghost predicate NeverDropped(states: seq<Ledger>, ws: seq<Write>, node: string, n: nat)
    requires n <= |ws| && n <= |states|
  {
    forall k: nat :: k < n ==> !Drops(states[k], ws[k], node)
  }

  /** Any rotation of this node but the first read the key its predecessor had left. */
  predicate KeyInTime(s: Ledger, w: Write, node: string) {
    w.PutKey? && w.node == node && A.RotationsOf(s.rotations, node) != [] ==> H.KeyOf(s, node) == w.seen
  }

  /** The current key is the one last rotated to. */
  predicate LastKey(s: Ledger, node: string) {
    var log := A.RotationsOf(s.rotations, node);
    log != [] ==> node in s.nodes && s.nodes[node].pubkey == Some(log[|log| - 1].newKey)
  }

  /** What a transaction does to a node and its log, if it neither drops it nor rotates its key. */
  lemma OthersLeaveKeys(env: Env, s: Ledger, w: Write, node: string)
    requires AllSane(s) && Sensible(w) && !Drops(s, w, node) && !(w.PutKey? && w.node == node)
    ensures var t := Commit(env, s, w);
            && A.RotationsOf(t.rotations, node) == A.RotationsOf(s.rotations, node)
            && (node in s.nodes ==> node in t.nodes)
            && (node in s.nodes && s.nodes[node].pubkey.Some? ==> t.nodes[node].pubkey == s.nodes[node].pubkey)
  {
    match w
    case PutKey(n, seen, key) => A.RotationsAfter(s.rotations, Rotation(n, seen, key), node);
    case Single(op) => SingleFrame(env, s, op);
    case PutTac(_, _, _) => TacWriteFrame(env, s, w);
    case PutName(_, _, _) => TacWriteFrame(env, s, w);
    case _ =>
  }

  lemma RotationLogged(env: Env, s: Ledger, w: Write, node: string)
    requires w.PutKey? && w.node == node && node in s.nodes
    ensures var t := Commit(env, s, w);
            && A.RotationsOf(t.rotations, node) == A.RotationsOf(s.rotations, node) + [Rotation(node, w.seen, w.key)]
            && node in t.nodes && t.nodes[node].pubkey == Some(w.key)
  {
    A.RotationsAfter(s.rotations, Rotation(node, w.seen, w.key), node);
  }

  lemma CommitKeepsLastKey(env: Env, s: Ledger, w: Write, node: string)
    requires AllSane(s) && Sensible(w) && !Drops(s, w, node) && LastKey(s, node)
    requires w.PutKey? && w.node == node ==> node in s.nodes
    ensures LastKey(Commit(env, s, w), node)
  {
    if w.PutKey? && w.node == node { RotationLogged(env, s, w, node); } else { OthersLeaveKeys(env, s, w, node); }
  }

  lemma ChainSnocExactly(chain: seq<Rotation>, r: Rotation, current: Option<string>)
    requires chain != [] ==> current == Some(chain[|chain| - 1].newKey)
    ensures A.Chained(chain + [r], Some(r.newKey))
            <==> A.Chained(chain, current) && (chain != [] ==> r.oldKey == current)
  {
    var more := chain + [r];
    assert forall i :: 0 <= i < |chain| ==> more[i] == chain[i];
    if A.Chained(more, Some(r.newKey)) && chain != [] {
      assert more[|chain|] == r && more[|chain| - 1] == chain[|chain| - 1];
    }
  }

  /** A chain survives a transaction exactly when the rotation in it, if any, was in time. */
  lemma CommitAndKeys(env: Env, s: Ledger, w: Write, node: string)
    requires AllSane(s) && Sensible(w) && !Drops(s, w, node) && LastKey(s, node)
    requires w.PutKey? && w.node == node ==> node in s.nodes
    ensures H.KeysTraced(Commit(env, s, w), node) <==> H.KeysTraced(s, node) && KeyInTime(s, w, node)
  {
    CommitKeepsLastKey(env, s, w, node);
    if w.PutKey? && w.node == node {
      RotationLogged(env, s, w, node);
      ChainSnocExactly(A.RotationsOf(s.rotations, node), Rotation(node, w.seen, w.key), s.nodes[node].pubkey);
    } else {
      OthersLeaveKeys(env, s, w, node);
    }
  }

  lemma {:induction false} NodePersists(env: Env, states: seq<Ledger>, ws: seq<Write>, node: string, j: nat, k: nat)
    requires IsOverlap(env, states, ws) && j <= k < |states| && node in states[j].nodes
             && NeverDropped(states, ws, node, k)
    ensures node in states[k].nodes
  {
    if j < k {
      NodePersists(env, states, ws, node, j, k - 1);
      NodePersistsOnce(env, states, ws, node, k - 1);
    }
  }

  lemma NodePersistsOnce(env: Env, states: seq<Ledger>, ws: seq<Write>, node: string, k: nat)
    requires IsOverlap(env, states, ws) && k < |ws| && node in states[k].nodes && !Drops(states[k], ws[k], node)
    ensures node in states[k + 1].nodes
  {
    EveryOverlapIsSound(env, states, ws, k);
    assert CommitAt(env, states, ws, k);
    if ws[k].PutKey? && ws[k].node == node {
      RotationLogged(env, states[k], ws[k], node);
    } else {
      OthersLeaveKeys(env, states[k], ws[k], node);
    }
  }

  lemma RotatedNodeIsThere(env: Env, states: seq<Ledger>, ws: seq<Write>, node: string, k: nat)
    requires IsOverlap(env, states, ws) && k < |ws| && NeverDropped(states, ws, node, k)
    ensures ws[k].PutKey? && ws[k].node == node ==> node in states[k].nodes
  {
    assert CommitAt(env, states, ws, k);
    if ws[k].PutKey? && ws[k].node == node {
      var j: nat :| j <= k && ReadAt(states[j], ws[k]);
      NodePersists(env, states, ws, node, j, k);
    }
  }

  lemma KeyChainStep(env: Env, states: seq<Ledger>, ws: seq<Write>, node: string, k: nat)
    requires IsOverlap(env, states, ws) && k < |ws| && NeverDropped(states, ws, node, k + 1) && LastKey(states[k], node)
    ensures LastKey(states[k + 1], node)
    ensures H.KeysTraced(states[k + 1], node) <==> H.KeysTraced(states[k], node) && KeyInTime(states[k], ws[k], node)
  {
    RotatedNodeIsThere(env, states, ws, node, k);
    EveryOverlapIsSound(env, states, ws, k);
    assert CommitAt(env, states, ws, k);
    assert !Drops(states[k], ws[k], node);
    CommitKeepsLastKey(env, states[k], ws[k], node);
    CommitAndKeys(env, states[k], ws[k], node);
  }

  lemma {:induction false} LastKeyHolds(env: Env, states: seq<Ledger>, ws: seq<Write>, node: string, n: nat)
    requires IsOverlap(env, states, ws) && n < |states| && NeverDropped(states, ws, node, n)
    ensures LastKey(states[n], node)
  {
    if n > 0 {
      LastKeyHolds(env, states, ws, node, n - 1);
      KeyChainStep(env, states, ws, node, n - 1);
    }
  }

  /** A property that is lost for good at the first step out of time. */
  lemma {:induction false} LostForGood(good: seq<bool>, timely: seq<bool>, n: nat)
    requires n < |good| && n <= |timely| && good[0]
    requires forall k: nat :: k < n ==> (good[k + 1] <==> good[k] && timely[k])
    ensures good[n] <==> forall k: nat :: k < n ==> timely[k]
  {
    if n > 0 { LostForGood(good, timely, n - 1); }
  }

  /** However calls overlap, the rotations of a node never purged form an unbroken chain to its
      current key exactly when each but the first read the key its predecessor had left. */
  lemma KeyChainExactly(env: Env, states: seq<Ledger>, ws: seq<Write>, node: string, n: nat)
    requires IsOverlap(env, states, ws) && n < |states| && NeverDropped(states, ws, node, n)
    ensures H.KeysTraced(states[n], node) <==> forall k: nat :: k < n ==> KeyInTime(states[k], ws[k], node)
  {
    var good := seq(|states|, i requires 0 <= i < |states| => H.KeysTraced(states[i], node));
    var timely := seq(|ws|, i requires 0 <= i < |ws| => KeyInTime(states[i], ws[i], node));
    forall k: nat | k < n ensures good[k + 1] <==> good[k] && timely[k] {
      LastKeyHolds(env, states, ws, node, k);
      KeyChainStep(env, states, ws, node, k);
    }
    LostForGood(good, timely, n);
    assert forall k: nat :: k < n ==> timely[k] == KeyInTime(states[k], ws[k], node);
  }

  // ─── names of a tac ───────────────────────────────────────────

  /** The rename read the name it replaces. */
  predicate NameInTime(env: Env, s: Ledger, w: Write, tac: string) {
    w.PutName? && w.tac == tac && tac in s.tacs && !T.TakenByOther(s, env.fold(w.name), tac)
    ==> s.tacs[tac].name == w.before
  }

  lemma OthersLeaveNames(env: Env, s: Ledger, w: Write, tac: string)
    requires AllSane(s) && Sensible(w) && !(w.PutName? && w.tac == tac)
    ensures var t := Commit(env, s, w);
            && T.ChangesOf(t.nameChanges, tac) == T.ChangesOf(s.nameChanges, tac)
            && (tac in s.tacs ==> tac in t.tacs && t.tacs[tac].name == s.tacs[tac].name)
  {
    match w
    case PutName(other, before, name) => T.ChangesAfter(s.nameChanges, NameChange(other, before, name), tac);
    case Single(op) => SingleFrame(env, s, op);
    case PutTac(_, _, _) =>
    case PutMember(_, _) =>
    case _ => if IsNodeWrite(w) { NodeWriteFrame(env, s, w); }
  }

  lemma LinkExactly(chain: seq<NameChange>, first: string, current: string, c: NameChange)
    requires T.NamesChain(chain, first, current)
    ensures T.NamesChain(chain + [c], first, c.newName) <==> c.oldName == current
  {
    var more := chain + [c];
    assert forall i :: 0 <= i < |chain| ==> more[i] == chain[i];
    assert more[|chain|] == c;
    if chain != [] && T.NamesChain(more, first, c.newName) {
      assert more[|chain| - 1] == chain[|chain| - 1];
    }
  }

  lemma RenameAndNames(env: Env, s: Ledger, w: Write, tac: string, first: string)
    requires w.PutName? && w.tac == tac && H.NamesTraced(s, tac, first) && !T.TakenByOther(s, env.fold(w.name), tac)
    ensures H.NamesTraced(Commit(env, s, w), tac, first) <==> s.tacs[tac].name == w.before
  {
    var c := NameChange(tac, w.before, w.name);
    T.ChangesAfter(s.nameChanges, c, tac);
    LinkExactly(T.ChangesOf(s.nameChanges, tac), first, s.tacs[tac].name, c);
  }

  /** The chain of names survives a transaction exactly when the rename in it, if any, was in time. */
  lemma CommitAndNames(env: Env, s: Ledger, w: Write, tac: string, first: string)
    requires AllSane(s) && Sensible(w) && H.NamesTraced(s, tac, first)
    ensures H.NamesTraced(Commit(env, s, w), tac, first) <==> NameInTime(env, s, w, tac)
  {
    if w.PutName? && w.tac == tac {
      if !T.TakenByOther(s, env.fold(w.name), tac) { RenameAndNames(env, s, w, tac, first); }
    } else {
      OthersLeaveNames(env, s, w, tac);
    }
  }

  lemma NameChainStep(env: Env, states: seq<Ledger>, ws: seq<Write>, tac: string, first: string, k: nat)
    requires IsOverlap(env, states, ws) && k < |ws| && H.NamesTraced(states[k], tac, first)
    ensures H.NamesTraced(states[k + 1], tac, first) <==> NameInTime(env, states[k], ws[k], tac)
  {
    EveryOverlapIsSound(env, states, ws, k);
    assert CommitAt(env, states, ws, k);
    CommitAndNames(env, states[k], ws[k], tac, first);
  }

  /** However calls overlap, the renames of a tac lead without a gap from the name it had at some
      moment to the name it has, at every moment from then on, exactly when each of them read the
      name it replaced. */
  lemma NameChainExactly(env: Env, states: seq<Ledger>, ws: seq<Write>, tac: string, first: string, m: nat, n: nat)
    requires IsOverlap(env, states, ws) && m <= n < |states| && H.NamesTraced(states[m], tac, first)
    ensures (forall k :: m <= k <= n ==> H.NamesTraced(states[k], tac, first))
            <==> (forall k :: m <= k < n ==> NameInTime(env, states[k], ws[k], tac))
  {
    var good := seq(|states|, i requires 0 <= i < |states| => H.NamesTraced(states[i], tac, first));
    var timely := seq(|ws|, i requires 0 <= i < |ws| => NameInTime(env, states[i], ws[i], tac));
    forall k: nat | m <= k < n && good[k] ensures good[k + 1] <==> timely[k] {
      NameChainStep(env, states, ws, tac, first, k);
    }
    Throughout(good, timely, m, n);
    assert forall k :: m <= k <= n ==> good[k] == H.NamesTraced(states[k], tac, first);
    assert forall k :: m <= k < n ==> timely[k] == NameInTime(env, states[k], ws[k], tac);
  }

  // ─── a new tac ────────────────────────────────────────────────

  predicate Adds(env: Env, s: Ledger, w: Write, tac: string) {
    w.PutTac? && w.tac == tac && tac !in s.tacs && T.Holders(s, env.fold(w.name)) == {}
  }

  lemma TacStays(env: Env, s: Ledger, w: Write, tac: string)
    requires AllSane(s) && Sensible(w) && tac in s.tacs
    ensures tac in Commit(env, s, w).tacs
  {
    if !(w.PutName? && w.tac == tac) { OthersLeaveNames(env, s, w, tac); }
  }

  lemma {:induction false} TacPersists(env: Env, states: seq<Ledger>, ws: seq<Write>, tac: string, j: nat, k: nat)
    requires IsOverlap(env, states, ws) && j <= k < |states| && tac in states[j].tacs
    ensures tac in states[k].tacs
  {
    if j < k {
      TacPersists(env, states, ws, tac, j, k - 1);
      EveryOverlapIsSound(env, states, ws, k - 1);
      assert CommitAt(env, states, ws, k - 1);
      TacStays(env, states[k - 1], ws[k - 1], tac);
    }
  }

  lemma AbsentBefore(env: Env, states: seq<Ledger>, ws: seq<Write>, tac: string, j: nat, k: nat)
    requires IsOverlap(env, states, ws) && j <= k < |states| && tac !in states[k].tacs
    ensures tac !in states[j].tacs
  {
    if tac in states[j].tacs { TacPersists(env, states, ws, tac, j, k); }
  }

  lemma NotRenamedYet(env: Env, states: seq<Ledger>, ws: seq<Write>, tac: string, k: nat)
    requires IsOverlap(env, states, ws) && k < |ws| && tac !in states[k].tacs
    ensures !(ws[k].PutName? && ws[k].tac == tac)
  {
    assert CommitAt(env, states, ws, k);
    var j: nat :| j <= k && ReadAt(states[j], ws[k]);
    AbsentBefore(env, states, ws, tac, j, k);
  }

  /** Nothing is logged about a tac that does not exist yet. */
  lemma {:induction false} NoNamesBefore(env: Env, states: seq<Ledger>, ws: seq<Write>, tac: string, k: nat)
    requires IsOverlap(env, states, ws) && k < |states| && tac !in states[k].tacs
    ensures H.Unmentioned(states[k], tac)
  {
    if k > 0 {
      AbsentBefore(env, states, ws, tac, k - 1, k);
      NoNamesBefore(env, states, ws, tac, k - 1);
      NotRenamedYet(env, states, ws, tac, k - 1);
      EveryOverlapIsSound(env, states, ws, k - 1);
      assert CommitAt(env, states, ws, k - 1);
      OthersLeaveNames(env, states[k - 1], ws[k - 1], tac);
    }
  }

  /** A tac starts with the name it was created with and no renames. */
  lemma CreationStarts(env: Env, states: seq<Ledger>, ws: seq<Write>, tac: string, k: nat)
    requires IsOverlap(env, states, ws) && k < |ws| && Adds(env, states[k], ws[k], tac)
    ensures H.NamesTraced(states[k + 1], tac, ws[k].name)
  {
    assert CommitAt(env, states, ws, k);
    NoNamesBefore(env, states, ws, tac, k);
  }

  // ─── acknowledgements ─────────────────────────────────────────

  /** As long as acknowledgements come in time, final states are final, READ leads only to
      PROCESSED, and what is no longer unread never is again. */
  lemma {:induction false} EndsStayInTime(env: Env, states: seq<Ledger>, ws: seq<Write>, d: nat, i: nat, j: nat)
    requires IsOverlap(env, states, ws) && i <= j < |states| && d < |states[i].deliveries|
    requires forall k :: i <= k < j ==> AckInTime(states[k], ws[k])
    ensures d < |states[j].deliveries|
    ensures var e, f := states[i].deliveries[d], states[j].deliveries[d];
            && (e.state in {Processed, Quarantined, Dead} ==> f == e)
            && (e.state.Read? ==> f.state.Read? || f.state.Processed?)
            && (!Unread(e) ==> !Unread(f))
  {
    if i < j {
      EndsStayInTime(env, states, ws, d, i, j - 1);
      EachCommitExactly(env, states, ws, j - 1);
      EveryOverlapIsSound(env, states, ws, j - 1);
      RowStepFacts(states[j - 1].deliveries[d], states[j].deliveries[d]);
    }
  }
}
