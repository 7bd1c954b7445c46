/** Removing, restoring and re-keying a node. Each writes its own audit row. */
module Admin {
  import opened Tables
  import Base58

  datatype Reply = Ok | NodeMissing | HasHistory | AlreadyActive | BadKey | SameKey

  predicate HasTraces(s: Ledger, node: string) {
    || (exists m :: m in s.messages && m.sender == node)
    || (exists d :: d in s.deliveries && d.recipient == node)
    || node in s.routes
  }

  /** A name is out after a soft removal, and no longer after anything else; either is logged. */
  function Logged(s: Ledger, node: string, mode: RemovalMode): Ledger {
    s.(removed := if mode.Soft? then s.removed + {node} else s.removed - {node},
       removals := s.removals + [Removal(node, mode)])
  }

  function Purged(s: Ledger, node: string): Ledger {
    Logged(s, node, Purge).(nodes := s.nodes - {node})
  }

  function Remove(s: Ledger, node: string, purge: bool): (Ledger, Reply) {
    if node == "" || node !in s.nodes then (s, NodeMissing)
    else if !purge then (Logged(s, node, Soft), Ok)
    else if HasTraces(s, node) then (s, Reply.HasHistory)
    else (Purged(s, node), Ok)
  }

  /** A purge takes only a node without any history. */
  lemma RemoveKeepsTraced(s: Ledger, node: string, purge: bool)
    ensures var t := Remove(s, node, purge).0;
            forall n :: n in s.nodes && HasTraces(s, n) ==> n in t.nodes && t.nodes[n] == s.nodes[n]
  {
    var t := Remove(s, node, purge).0;
    assert t.nodes == s.nodes || (!HasTraces(s, node) && t.nodes == s.nodes - {node});
  }

  function RestoreNode(s: Ledger, node: string): (Ledger, Reply) {
    if node == "" then (s, NodeMissing)
    else if node !in s.removed then (s, if node in s.nodes then AlreadyActive else NodeMissing)
    else (Logged(s, node, Restore), Ok)
  }

  /** base58 of 32 bytes. */
  predicate IsKey(k: string) {
    var b := Base58.Decode(k);
    b.Some? && |b.value| == 32
  }

  /** The new key, and a log entry from the key that was read. */
  function Rekeyed(s: Ledger, node: string, seen: Option<string>, key: string): Ledger {
    s.(nodes := if node in s.nodes then s.nodes[node := s.nodes[node].(pubkey := Some(key))] else s.nodes,
       rotations := s.rotations + [Rotation(node, seen, key)])
  }

  function Rotate(s: Ledger, node: string, key: string): (Ledger, Reply) {
    if key == "" || !IsKey(key) then (s, BadKey)
    else if node !in s.nodes then (s, NodeMissing)
    else if s.nodes[node].pubkey == Some(key) then (s, SameKey)
    else (Rekeyed(s, node, s.nodes[node].pubkey, key), Ok)
  }

  function Snooze(s: Ledger, node: string, until: Option<int>): Ledger {
    if node in s.nodes then s.(nodes := s.nodes[node := s.nodes[node].(snoozeUntil := until)]) else s
  }

  // ─── the audit logs ───────────────────────────────────────────

  /** The last entry the removals log holds for a node. */
  function LastRemoval(log: seq<Removal>, node: string): Option<RemovalMode> {
    if log == [] then None
    else if log[|log| - 1].node == node then Some(log[|log| - 1].mode)
    else LastRemoval(log[..|log| - 1], node)
  }

  lemma LastRemovalAfter(log: seq<Removal>, r: Removal, node: string)
    ensures LastRemoval(log + [r], node) == if r.node == node then Some(r.mode) else LastRemoval(log, node)
  {
    assert (log + [r])[..|log|] == log;
  }

  /** A name is removed exactly when the last entry about it says so. */
  ghost predicate LogTells(s: Ledger) {
    forall n :: n in s.removed <==> LastRemoval(s.removals, n) == Some(Soft)
  }

  predicate RemovedAreNodes(s: Ledger) {
    s.removed <= s.nodes.Keys
  }

  /** The removals log replays to the set of removed nodes. */
  ghost predicate RemovalsReplay(s: Ledger) {
    RemovedAreNodes(s) && LogTells(s)
  }

  lemma LoggedTells(s: Ledger, node: string, mode: RemovalMode)
    requires LogTells(s)
    ensures LogTells(Logged(s, node, mode))
  {
    forall n
      ensures LastRemoval(s.removals + [Removal(node, mode)], n) ==
              if n == node then Some(mode) else LastRemoval(s.removals, n)
    {
      LastRemovalAfter(s.removals, Removal(node, mode), n);
    }
  }

  lemma RemoveKeepsReplay(s: Ledger, node: string, purge: bool)
    requires RemovalsReplay(s)
    ensures RemovalsReplay(Remove(s, node, purge).0)
  {
    LoggedTells(s, node, if purge then Purge else Soft);
  }

  lemma RestoreKeepsReplay(s: Ledger, node: string)
    requires RemovalsReplay(s)
    ensures RemovalsReplay(RestoreNode(s, node).0)
  {
    LoggedTells(s, node, Restore);
  }

  /** The rotations of one node, oldest first. */
  function RotationsOf(log: seq<Rotation>, node: string): seq<Rotation> {
    if log == [] then []
    else RotationsOf(log[..|log| - 1], node) + if log[|log| - 1].node == node then [log[|log| - 1]] else []
  }

  lemma RotationsAfter(log: seq<Rotation>, r: Rotation, node: string)
    ensures RotationsOf(log + [r], node) == RotationsOf(log, node) + if r.node == node then [r] else []
  {
    assert (log + [r])[..|log|] == log;
  }

  /** Every entry starts from the key the one before it left, and the last leaves the current key. */
  ghost predicate Chained(chain: seq<Rotation>, current: Option<string>) {
    && (forall i :: 0 < i < |chain| ==> chain[i].oldKey == Some(chain[i - 1].newKey))
    && (|chain| > 0 ==> current == Some(chain[|chain| - 1].newKey))
  }

  lemma ChainSnoc(chain: seq<Rotation>, current: Option<string>, r: Rotation)
    requires Chained(chain, current) && r.oldKey == current
    ensures Chained(chain + [r], Some(r.newKey))
  {
  }

  lemma RotateExtendsChain(s: Ledger, node: string, key: string, n: string)
    requires n in s.nodes && Chained(RotationsOf(s.rotations, n), s.nodes[n].pubkey)
    ensures var t := Rotate(s, node, key).0;
            n in t.nodes && Chained(RotationsOf(t.rotations, n), t.nodes[n].pubkey)
  {
    var (t, reply) := Rotate(s, node, key);
    if reply.Ok? {
      var r := Rotation(node, s.nodes[node].pubkey, key);
      RotationsAfter(s.rotations, r, n);
      if n == node {
        ChainSnoc(RotationsOf(s.rotations, n), s.nodes[n].pubkey, r);
      } else {
        assert RotationsOf(t.rotations, n) == RotationsOf(s.rotations, n);
      }
    }
  }
}
