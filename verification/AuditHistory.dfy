/** The audit logs replay to the state, in runs where each call is one step. What overlapping calls
    make of them is in `OverlapHistory`. */
module AuditHistory {
  import opened Tables
  import opened Identifiers
  import opened BusRuns
  import A = Admin
  import T = Tacs
  import R = Registration
  import Base58

  // ─── key rotations ────────────────────────────────────────────

  predicate Purges(s: Ledger, op: Op, node: string) {
    op.Remove? && op.purge && op.node == node && A.Remove(s, node, true).1.Ok?
  }

  predicate PurgedAt(states: seq<Ledger>, ops: seq<Op>, node: string, k: nat) {
    k < |ops| && k < |states| && Purges(states[k], ops[k], node)
  }

  ghost predicate NeverPurged(states: seq<Ledger>, ops: seq<Op>, node: string, m: nat) {
    forall k: nat :: k < m ==> !PurgedAt(states, ops, node, k)
  }

  ghost predicate KeysTraced(s: Ledger, node: string) {
    if node in s.nodes then A.Chained(A.RotationsOf(s.rotations, node), s.nodes[node].pubkey)
    else A.RotationsOf(s.rotations, node) == []
  }

  lemma StepKeepsKeysTraced(env: Env, s: Ledger, op: Op, node: string)
    requires KeysTraced(s, node)
    requires !Purges(s, op, node)
    ensures KeysTraced(Step(env, s, op), node)
  {
    if op.Rotate? {
      if node in s.nodes {
        A.RotateExtendsChain(s, op.node, op.key, node);
      } else if A.Rotate(s, op.node, op.key).1.Ok? {
        A.RotationsAfter(s.rotations, Rotation(op.node, s.nodes[op.node].pubkey, op.key), node);
      }
    } else if !op.Register? && !(op.Remove? && op.purge) {
      OtherStepsKeepKeys(env, s, op);
    }
  }

  /** For a node never purged, the rotations form an unbroken chain to its current key. */
  lemma {:induction false} KeyChainHolds(env: Env, states: seq<Ledger>, ops: seq<Op>, node: string, m: nat)
    requires IsRun(env, states, ops) && m < |states| && NeverPurged(states, ops, node, m)
    ensures KeysTraced(states[m], node)
  {
    if m > 0 {
      KeyChainHolds(env, states, ops, node, m - 1);
      assert StepAt(env, states, ops, m - 1);
      assert !PurgedAt(states, ops, node, m - 1);
      StepKeepsKeysTraced(env, states[m - 1], ops[m - 1], node);
    }
  }

  /** Right after a purge, a registration restores the chain exactly when it brings the last key. */
  lemma ChainRightAfterPurge(s: Ledger, a: R.Registration)
    requires KeysTraced(s, a.node) && A.RotationsOf(s.rotations, a.node) != []
    requires A.Remove(s, a.node, true).1.Ok? && R.Refused(A.Remove(s, a.node, true).0, a).None?
    ensures var chain := A.RotationsOf(s.rotations, a.node);
            KeysTraced(R.Register(A.Remove(s, a.node, true).0, a), a.node)
            <==> a.pubkey == Some(chain[|chain| - 1].newKey)
  {
  }

  // ─── a purge, and anything after it ───────────────────────────

  predicate Rotates(s: Ledger, op: Op, node: string) {
    op.Rotate? && op.node == node && A.Rotate(s, node, op.key).1.Ok?
  }

  predicate Registers(s: Ledger, op: Op, node: string) {
    op.Register? && op.reg.node == node && R.Refused(s, op.reg).None?
  }

  /** The first key that a registration brought in steps from..to: the first one set wins. */
  function FirstKey(states: seq<Ledger>, ops: seq<Op>, node: string, from: nat, to: nat): Option<string>
    requires to <= |ops| && to <= |states|
  {
    if to <= from then None
    else
      var earlier := FirstKey(states, ops, node, from, to - 1);
      if earlier.Some? || !Registers(states[to - 1], ops[to - 1], node) then earlier else ops[to - 1].reg.pubkey
  }

  function KeyOf(s: Ledger, node: string): Option<string> {
    if node in s.nodes then s.nodes[node].pubkey else None
  }

  /** A step that neither purges the node nor rotates its key. */
  lemma QuietStep(env: Env, s: Ledger, op: Op, node: string)
    requires !Purges(s, op, node) && !Rotates(s, op, node)
    ensures A.RotationsOf(Step(env, s, op).rotations, node) == A.RotationsOf(s.rotations, node)
    ensures KeyOf(Step(env, s, op), node) ==
            if KeyOf(s, node).None? && Registers(s, op, node) then op.reg.pubkey else KeyOf(s, node)
  {
    if op.Rotate? {
      if A.Rotate(s, op.node, op.key).1.Ok? {
        A.RotationsAfter(s.rotations, Rotation(op.node, s.nodes[op.node].pubkey, op.key), node);
      }
    } else if !op.Register? && !(op.Remove? && op.purge) {
      OtherStepsKeepKeys(env, s, op);
    }
  }

  lemma PurgeForgets(env: Env, s: Ledger, op: Op, node: string)
    requires Purges(s, op, node)
    ensures Step(env, s, op).rotations == s.rotations && node in s.nodes && node !in Step(env, s, op).nodes
  {
  }

  ghost predicate Quiet(states: seq<Ledger>, ops: seq<Op>, node: string, from: nat, to: nat)
    requires to <= |ops| && to <= |states|
  {
    forall j: nat :: from <= j < to ==> !Purges(states[j], ops[j], node) && !Rotates(states[j], ops[j], node)
  }

  lemma {:induction false} WaitingKey(env: Env, states: seq<Ledger>, ops: seq<Op>, node: string, k: nat, q: nat)
    requires IsRun(env, states, ops) && k < q <= |ops| && Purges(states[k], ops[k], node)
             && Quiet(states, ops, node, k + 1, q)
    ensures A.RotationsOf(states[q].rotations, node) == A.RotationsOf(states[k].rotations, node)
    ensures KeyOf(states[q], node) == FirstKey(states, ops, node, k + 1, q)
  {
    assert StepAt(env, states, ops, q - 1);
    if q == k + 1 {
      PurgeForgets(env, states[k], ops[k], node);
    } else {
      WaitingKey(env, states, ops, node, k, q - 1);
      QuietStep(env, states[q - 1], ops[q - 1], node);
    }
  }

  /** The log goes on after these first entries with one that starts from `key`, and from there
      it is a chain to the current key. */
  ghost predicate GoesOn(s: Ledger, node: string, before: seq<Rotation>, key: Option<string>) {
    var log := A.RotationsOf(s.rotations, node);
    && node in s.nodes && |log| > |before| && log[..|before|] == before
    && log[|before|].oldKey == key && A.Chained(log[|before|..], s.nodes[node].pubkey)
  }

  lemma RotationGoesOn(env: Env, s: Ledger, op: Op, node: string)
    requires Rotates(s, op, node)
    ensures GoesOn(Step(env, s, op), node, A.RotationsOf(s.rotations, node), KeyOf(s, node))
  {
    var r := Rotation(node, s.nodes[node].pubkey, op.key);
    assert Step(env, s, op) == A.Rekeyed(s, node, r.oldKey, op.key);
    A.RotationsAfter(s.rotations, r, node);
    var log := A.RotationsOf(s.rotations, node);
    assert (log + [r])[..|log|] == log && (log + [r])[|log|..] == [r];
  }

  lemma StepGoesOn(env: Env, s: Ledger, op: Op, node: string, before: seq<Rotation>, key: Option<string>)
    requires GoesOn(s, node, before, key) && !Purges(s, op, node)
    ensures GoesOn(Step(env, s, op), node, before, key)
  {
    var log := A.RotationsOf(s.rotations, node);
    if Rotates(s, op, node) {
      var r := Rotation(node, s.nodes[node].pubkey, op.key);
      A.RotationsAfter(s.rotations, r, node);
      A.ChainSnoc(log[|before|..], s.nodes[node].pubkey, r);
      assert (log + [r])[..|before|] == before && (log + [r])[|before|..] == log[|before|..] + [r];
    } else {
      QuietStep(env, s, op, node);
      assert log[|before|..] != [];
      assert KeyOf(s, node).Some?;
    }
  }

  lemma GoesOnFrom(env: Env, states: seq<Ledger>, ops: seq<Op>, node: string, q: nat)
    requires IsRun(env, states, ops) && q < |ops| && Rotates(states[q], ops[q], node)
    ensures GoesOn(states[q + 1], node, A.RotationsOf(states[q].rotations, node), KeyOf(states[q], node))
  {
    assert StepAt(env, states, ops, q);
    RotationGoesOn(env, states[q], ops[q], node);
  }

  lemma GoesOnAt(env: Env, states: seq<Ledger>, ops: seq<Op>, node: string, before: seq<Rotation>, key: Option<string>,
        k: nat)
    requires IsRun(env, states, ops) && k < |ops| && GoesOn(states[k], node, before, key)
             && !Purges(states[k], ops[k], node)
    ensures GoesOn(states[k + 1], node, before, key)
  {
    assert StepAt(env, states, ops, k);
    StepGoesOn(env, states[k], ops[k], node, before, key);
  }

  lemma {:induction false} RunGoesOn(env: Env, states: seq<Ledger>, ops: seq<Op>, node: string, q: nat, m: nat,
        before: seq<Rotation>, key: Option<string>)
    requires IsRun(env, states, ops) && q < m <= |ops| && GoesOn(states[q + 1], node, before, key)
    requires forall j: nat :: q < j < m ==> !Purges(states[j], ops[j], node)
    ensures GoesOn(states[m], node, before, key)
  {
    if m > q + 1 {
      RunGoesOn(env, states, ops, node, q, m - 1, before, key);
      GoesOnAt(env, states, ops, node, before, key, m - 1);
    }
  }

  lemma JoinedChain(before: seq<Rotation>, after: seq<Rotation>, key: Option<string>, current: Option<string>)
    requires before != [] && after != [] && A.Chained(before, key) && A.Chained(after, current)
    ensures A.Chained(before + after, current) <==> after[0].oldKey == Some(before[|before| - 1].newKey)
  {
    var log := before + after;
    assert log[|before|] == after[0] && log[|before| - 1] == before[|before| - 1];
    if after[0].oldKey == Some(before[|before| - 1].newKey) {
      forall i | 0 < i < |log| ensures log[i].oldKey == Some(log[i - 1].newKey) {
        assert i > |before| ==> log[i] == after[i - |before|] && log[i - 1] == after[i - |before| - 1];
      }
    }
  }

  lemma ChainUnrotated(env: Env, states: seq<Ledger>, ops: seq<Op>, node: string, k: nat, m: nat)
    requires IsRun(env, states, ops) && k < m <= |ops| && node in states[m].nodes
    requires Purges(states[k], ops[k], node) && KeysTraced(states[k], node)
             && A.RotationsOf(states[k].rotations, node) != []
    requires Quiet(states, ops, node, k + 1, m)
    ensures var chain := A.RotationsOf(states[k].rotations, node);
            KeysTraced(states[m], node) <==> FirstKey(states, ops, node, k + 1, m) == Some(chain[|chain| - 1].newKey)
  {
    PurgeForgets(env, states[k], ops[k], node);
    WaitingKey(env, states, ops, node, k, m);
  }

  lemma ChainRotated(s: Ledger, node: string, before: seq<Rotation>, key: Option<string>, was: Option<string>)
    requires GoesOn(s, node, before, key) && before != [] && A.Chained(before, was)
    ensures KeysTraced(s, node) <==> key == Some(before[|before| - 1].newKey)
  {
    var log := A.RotationsOf(s.rotations, node);
    JoinedChain(before, log[|before|..], was, s.nodes[node].pubkey);
    assert log == before + log[|before|..];
  }

  /** A purge leaves the rotations behind. Whatever happens after it, once the name is registered
      again and as long as it is not purged again, its chain holds exactly when the first key a
      registration brought it, before its next rotation, is the last key it had rotated to. */
  lemma ChainAfterPurge(env: Env, states: seq<Ledger>, ops: seq<Op>, node: string, k: nat, q: nat, m: nat)
    requires IsRun(env, states, ops) && k < q <= m <= |ops| && node in states[m].nodes
    requires Purges(states[k], ops[k], node) && KeysTraced(states[k], node)
             && A.RotationsOf(states[k].rotations, node) != []
    requires Quiet(states, ops, node, k + 1, q) && (q < m ==> Rotates(states[q], ops[q], node))
    requires forall j: nat :: k < j < m ==> !Purges(states[j], ops[j], node)
    ensures var chain := A.RotationsOf(states[k].rotations, node);
            KeysTraced(states[m], node) <==> FirstKey(states, ops, node, k + 1, q) == Some(chain[|chain| - 1].newKey)
  {
    if q == m {
      ChainUnrotated(env, states, ops, node, k, m);
    } else {
      var before := A.RotationsOf(states[k].rotations, node);
      WaitingKey(env, states, ops, node, k, q);
      GoesOnFrom(env, states, ops, node, q);
      RunGoesOn(env, states, ops, node, q, m, before, KeyOf(states[q], node));
      PurgeForgets(env, states[k], ops[k], node);
      ChainRotated(states[m], node, before, KeyOf(states[q], node), states[k].nodes[node].pubkey);
    }
  }

  const CAROL := R.Registration("c", false, None, "", "", "", R.Unset, R.Unset, R.Unset, R.Unset, "", "", "", 0)

  const ONE := EMPTY.(nodes := map["c" := Node(false, None, 0, None)])

  function Rekeyed(key: string): Ledger {
    EMPTY.(nodes := map["c" := Node(false, Some(key), 0, None)], rotations := [Rotation("c", None, key)])
  }

  lemma FirstRegistration()
    ensures R.Register(EMPTY, CAROL) == ONE
  {
  }

  lemma FirstRotation(key: string)
    requires A.IsKey(key)
    ensures A.Rotate(ONE, "c", key).0 == Rekeyed(key)
  {
    EmptyIsNoKey();
    assert ONE.nodes["c" := Node(false, Some(key), 0, None)] == Rekeyed(key).nodes;
  }

  lemma FirstChain(key: string)
    ensures KeysTraced(Rekeyed(key), "c") && A.RotationsOf(Rekeyed(key).rotations, "c") == [Rotation("c", None, key)]
  {
    A.RotationsAfter([], Rotation("c", None, key), "c");
    assert Rekeyed(key).rotations == [] + [Rotation("c", None, key)];
  }

  lemma PurgeAllowed(key: string)
    ensures A.Remove(Rekeyed(key), "c", true).1.Ok?
    ensures R.Refused(A.Remove(Rekeyed(key), "c", true).0, CAROL).None?
  {
  }

  lemma EmptyIsNoKey()
    ensures !A.IsKey("")
  {
    Base58.EncodeDecode("");
    if A.IsKey("") { Base58.DecodeEncode(Base58.Decode("").value); }
  }

  lemma PurgeRun(env: Env, key: string)
    requires A.IsKey(key)
    ensures exists states, ops :: IsRun(env, states, ops) && |ops| == 4 && !KeysTraced(states[4], "c")
  {
    FirstChain(key);
    PurgeAllowed(key);
    ChainRightAfterPurge(Rekeyed(key), CAROL);
    PurgeSteps(env, key);
    var gone := A.Remove(Rekeyed(key), "c", true).0;
    var states := [EMPTY, ONE, Rekeyed(key), gone, R.Register(gone, CAROL)];
    var ops := [Register(CAROL), Rotate("c", key), Remove("c", true), Register(CAROL)];
    forall k: nat | k < 4 ensures StepAt(env, states, ops, k) {
      PlainStep(env, states, ops, k);
    }
    assert IsRun(env, states, ops);
  }

  lemma PlainStep(env: Env, states: seq<Ledger>, ops: seq<Op>, k: nat)
    requires k < |ops| && |states| == |ops| + 1 && !ops[k].Send? && !ops[k].CreateTac?
    requires states[k + 1] == Step(env, states[k], ops[k])
    ensures StepAt(env, states, ops, k)
  {
  }

  lemma PurgeSteps(env: Env, key: string)
    requires A.IsKey(key)
    ensures Step(env, EMPTY, Register(CAROL)) == ONE && Step(env, ONE, Rotate("c", key)) == Rekeyed(key)
    ensures Step(env, Rekeyed(key), Remove("c", true)) == A.Remove(Rekeyed(key), "c", true).0
    ensures forall s :: Step(env, s, Register(CAROL)) == R.Register(s, CAROL)
  {
    FirstRegistration();
    FirstRotation(key);
  }

  /** Such a run exists: register, rotate, purge, register again without a key. */
  lemma PurgeBreaksTheChain(env: Env)
    ensures exists states, ops :: IsRun(env, states, ops) && |ops| == 4 && !KeysTraced(states[4], "c")
  {
    var bytes: seq<Base58.byte> := seq(32, _ => 1);
    Base58.DecodeEncode(bytes);
    PurgeRun(env, Base58.Encode(bytes));
  }

  // ─── removals ─────────────────────────────────────────────────

  /** A node is removed exactly when the last entry about it in the removals log is "soft". */
  lemma RemovalsTellWhoIsOut(env: Env, states: seq<Ledger>, ops: seq<Op>, node: string, m: nat)
    requires IsRun(env, states, ops) && m < |states|
    ensures node in states[m].removed <==> A.LastRemoval(states[m].removals, node) == Some(Soft)
    ensures node in states[m].removed ==> node in states[m].nodes
  {
    EveryStateIsGood(env, states, ops, m);
  }

  // ─── names of a tac ───────────────────────────────────────────

  predicate Creates(env: Env, s: Ledger, op: Op, tac: string) {
    op.CreateTac? && op.minted == tac && T.Create(env, s, op.name, op.description, tac).1.Ok?
  }

  predicate CreatedAt(env: Env, states: seq<Ledger>, ops: seq<Op>, tac: string, k: nat) {
    k < |ops| && k < |states| && Creates(env, states[k], ops[k], tac)
  }

  ghost predicate NamesTraced(s: Ledger, tac: string, first: string) {
    tac in s.tacs && T.NamesChain(T.ChangesOf(s.nameChanges, tac), first, s.tacs[tac].name)
  }

  ghost predicate Unmentioned(s: Ledger, tac: string) {
    tac !in s.tacs && T.ChangesOf(s.nameChanges, tac) == []
  }

  lemma StepKeepsNamesTraced(env: Env, s: Ledger, op: Op, tac: string, first: string)
    requires NamesTraced(s, tac, first) && Enabled(s, op)
    ensures NamesTraced(Step(env, s, op), tac, first)
  {
    if op.RenameTac? {
      T.RenameExtendsChain(env, s, op.tac, op.name, tac, first);
    } else if !op.CreateTac? {
      OtherStepsKeepNames(env, s, op);
    }
  }

  lemma CreationStartsTrace(env: Env, s: Ledger, op: Op, tac: string)
    requires Unmentioned(s, tac) && Creates(env, s, op, tac)
    ensures NamesTraced(Step(env, s, op), tac, env.strip(op.name))
  {
    var t := T.Create(env, s, op.name, op.description, tac).0;
    assert Step(env, s, op) == t;
    assert t.nameChanges == s.nameChanges && t.tacs[tac].name == env.strip(op.name);
  }

  lemma OtherwiseUnmentioned(env: Env, s: Ledger, op: Op, tac: string)
    requires Unmentioned(s, tac) && !Creates(env, s, op, tac)
    ensures Unmentioned(Step(env, s, op), tac)
  {
    if op.RenameTac? {
      assert Step(env, s, op) == T.Rename(env, s, op.tac, op.name).0;
      T.RenameElsewhere(env, s, op.tac, op.name, tac);
    } else if op.CreateTac? {
      assert Step(env, s, op) == T.Create(env, s, op.name, op.description, op.minted).0;
    } else {
      OtherStepsKeepNames(env, s, op);
    }
  }

  /** A tac keeps the id it was created under for ever, and its renames lead without a gap from
      the name it was created with to the name it has. */
  lemma {:induction false} NameChainHolds(env: Env, states: seq<Ledger>, ops: seq<Op>, tac: string, m: nat)
    requires IsRun(env, states, ops) && m < |states|
    ensures (exists k: nat :: k < m && CreatedAt(env, states, ops, tac, k)
                              && NamesTraced(states[m], tac, env.strip(ops[k].name)))
            || Unmentioned(states[m], tac)
  {
    if m > 0 {
      NameChainHolds(env, states, ops, tac, m - 1);
      assert StepAt(env, states, ops, m - 1);
      if Unmentioned(states[m - 1], tac) {
        if Creates(env, states[m - 1], ops[m - 1], tac) {
          CreationStartsTrace(env, states[m - 1], ops[m - 1], tac);
          assert CreatedAt(env, states, ops, tac, m - 1);
        } else {
          OtherwiseUnmentioned(env, states[m - 1], ops[m - 1], tac);
        }
      } else {
        var k: nat :| k < m - 1 && CreatedAt(env, states, ops, tac, k)
                      && NamesTraced(states[m - 1], tac, env.strip(ops[k].name));
        StepKeepsNamesTraced(env, states[m - 1], ops[m - 1], tac, env.strip(ops[k].name));
      }
    }
  }

  /** Tac ids are canonical UUIDs, stored keys are the folded names, and no two names fold alike. */
  lemma TacIdentityHolds(env: Env, states: seq<Ledger>, ops: seq<Op>, m: nat)
    requires IsRun(env, states, ops) && m < |states|
    ensures forall t :: t in states[m].tacs
                        ==> IsCanonicalUuid(t) && states[m].tacs[t].key == env.fold(states[m].tacs[t].name)
    ensures forall t, u :: t in states[m].tacs && u in states[m].tacs && t != u
                           ==> env.fold(states[m].tacs[t].name) != env.fold(states[m].tacs[u].name)
  {
    EveryStateIsGood(env, states, ops, m);
  }
}
