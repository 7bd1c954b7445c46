/** Creating, renaming, joining and closing tacs on a ledger that uses UUID identifiers. */
module Tacs {
  import opened Tables
  import opened Identifiers

  datatype Reply =
    | Ok
    | NameInvalid
    | NotConverted
    | NameIsNode
    | NameTaken
    | IdInvalid
    | NotFound
    | AlreadyClosed
    | NodeMissing
    | NodeRemoved
    | NotMember

  /** Rows that are not on the UUID scheme. */
  predicate Unconverted(s: Ledger) {
    exists t :: t in s.tacs && !IsCanonicalUuid(t)
  }

  function Holders(s: Ledger, key: string): set<string> {
    set t | t in s.tacs && s.tacs[t].key == key
  }

  /** SELECT tac_id FROM tacs WHERE name_key=?, which a unique index keeps to one row. */
  predicate TakenByOther(s: Ledger, key: string, me: string) {
    exists t :: t in s.tacs && t != me && s.tacs[t].key == key
  }

  /** The identifier is minted; the caller only names the tac. */
  function Create(env: Env, s: Ledger, name: string, description: Option<string>, minted: string): (Ledger, Reply) {
    var display := env.strip(name);
    var key := env.fold(display);
    if !env.nameOk(name) then (s, NameInvalid)
    else if Unconverted(s) then (s, NotConverted)
    else if display in s.nodes then (s, NameIsNode)
    else if Holders(s, key) != {} then (s, NameTaken)
    else (s.(tacs := s.tacs[minted := Tac(display, key, description, None)]), Ok)
  }

  /** The new name and its key, and a log entry if it differs from the name that was read. */
  function Renamed(s: Ledger, tac: string, seen: string, name: string, key: string): Ledger {
    s.(tacs := if tac in s.tacs then s.tacs[tac := s.tacs[tac].(name := name, key := key)] else s.tacs,
       nameChanges := if seen != name then s.nameChanges + [NameChange(tac, seen, name)] else s.nameChanges)
  }

  function Rename(env: Env, s: Ledger, tac: string, name: string): (Ledger, Reply) {
    var display := env.strip(name);
    var key := env.fold(display);
    if Unconverted(s) then (s, NotConverted)
    else if !IsCanonicalUuid(tac) then (s, IdInvalid)
    else if !env.nameOk(name) then (s, NameInvalid)
    else if tac !in s.tacs then (s, NotFound)
    else if display in s.nodes then (s, NameIsNode)
    else if TakenByOther(s, key, tac) then (s, NameTaken)
    else (Renamed(s, tac, s.tacs[tac].name, display, key), Ok)
  }

  predicate Designates(s: Ledger, tac: string) {
    IsCanonicalUuid(tac) || tac in s.tacs
  }

  /** Closing applies only while the tac is open. */
  function Close(s: Ledger, tac: string, summary: Option<string>, actor: Option<string>, now: int): (Ledger, Reply) {
    if !Designates(s, tac) then (s, IdInvalid)
    else if tac !in s.tacs then (s, NotFound)
    else if s.tacs[tac].closed.Some? then (s, AlreadyClosed)
    else (s.(tacs := s.tacs[tac := s.tacs[tac].(closed := Some(Closing(now, summary, actor)))]), Ok)
  }

  function AddMember(s: Ledger, tac: string, node: string): (Ledger, Reply) {
    if tac !in s.tacs then (s, NotFound)
    else if node !in s.nodes then (s, NodeMissing)
    else if node in s.removed then (s, NodeRemoved)
    else (s.(members := s.members + {(tac, node)}), Ok)
  }

  function RemoveMember(s: Ledger, tac: string, node: string): (Ledger, Reply) {
    if !Designates(s, tac) then (s, IdInvalid)
    else if (tac, node) !in s.members then (s, NotMember)
    else (s.(members := s.members - {(tac, node)}), Ok)
  }

  // ─── identity ─────────────────────────────────────────────────

  /** Canonical ids, keys that are the folded names, no two names alike. */
  ghost predicate Identified(env: Env, s: Ledger) {
    && (forall t :: t in s.tacs ==> IsCanonicalUuid(t) && s.tacs[t].key == env.fold(s.tacs[t].name))
    && (forall t, u :: t in s.tacs && u in s.tacs && t != u ==> s.tacs[t].key != s.tacs[u].key)
  }

  lemma CreateKeepsIdentified(env: Env, s: Ledger, name: string, description: Option<string>, minted: string)
    requires Identified(env, s) && IsCanonicalUuid(minted) && minted !in s.tacs
    ensures Identified(env, Create(env, s, name, description, minted).0)
    ensures Create(env, s, name, description, minted).1 != NotConverted
  {
    var key := env.fold(env.strip(name));
    assert Holders(s, key) == {} ==> forall t :: t in s.tacs && s.tacs[t].key == key ==> t in Holders(s, key);
  }

  lemma RenameKeepsIdentified(env: Env, s: Ledger, tac: string, name: string)
    requires Identified(env, s)
    ensures Identified(env, Rename(env, s, tac, name).0) && Rename(env, s, tac, name).0.tacs.Keys == s.tacs.Keys
    ensures Rename(env, s, tac, name).1 != NotConverted
  {
    var (t, reply) := Rename(env, s, tac, name);
    if reply.Ok? {
      var key := env.fold(env.strip(name));
      assert t.tacs.Keys == s.tacs.Keys;
      assert t.tacs[tac].key == key == env.fold(t.tacs[tac].name);
      assert forall u :: u in s.tacs && u != tac ==> t.tacs[u] == s.tacs[u] && s.tacs[u].key != key;
    }
  }

  /** The renames of one tac, oldest first. */
  function ChangesOf(log: seq<NameChange>, tac: string): seq<NameChange> {
    if log == [] then []
    else ChangesOf(log[..|log| - 1], tac) + if log[|log| - 1].tac == tac then [log[|log| - 1]] else []
  }

  lemma ChangesAfter(log: seq<NameChange>, c: NameChange, tac: string)
    ensures ChangesOf(log + [c], tac) == ChangesOf(log, tac) + if c.tac == tac then [c] else []
  {
    assert (log + [c])[..|log|] == log;
  }

  /** The renames lead from the first name to the current one without a gap. */
  ghost predicate NamesChain(chain: seq<NameChange>, first: string, current: string) {
    && (forall i :: 0 < i < |chain| ==> chain[i].oldName == chain[i - 1].newName)
    && (if chain == [] then current == first else chain[0].oldName == first && chain[|chain| - 1].newName == current)
  }

  lemma RenamedExtendsChain(s: Ledger, c: NameChange, key: string, t: string, first: string)
    requires t in s.tacs && NamesChain(ChangesOf(s.nameChanges, t), first, s.tacs[t].name)
    requires c.tac in s.tacs && c.oldName == s.tacs[c.tac].name
    ensures var u := Renamed(s, c.tac, c.oldName, c.newName, key);
            t in u.tacs && NamesChain(ChangesOf(u.nameChanges, t), first, u.tacs[t].name)
  {
    ChangesAfter(s.nameChanges, c, t);
    if c.tac == t { ChainGrows(ChangesOf(s.nameChanges, t), c, first); }
  }

  lemma RenameExtendsChain(env: Env, s: Ledger, tac: string, name: string, t: string, first: string)
    requires t in s.tacs && NamesChain(ChangesOf(s.nameChanges, t), first, s.tacs[t].name)
    ensures var u := Rename(env, s, tac, name).0;
            t in u.tacs && NamesChain(ChangesOf(u.nameChanges, t), first, u.tacs[t].name)
  {
    var (u, r) := Rename(env, s, tac, name);
    if r.Ok? {
      var c := NameChange(tac, s.tacs[tac].name, env.strip(name));
      assert u == Renamed(s, tac, c.oldName, c.newName, env.fold(c.newName));
      RenamedExtendsChain(s, c, env.fold(c.newName), t, first);
    }
  }

  lemma ChainGrows(chain: seq<NameChange>, c: NameChange, first: string)
    requires NamesChain(chain, first, c.oldName)
    ensures NamesChain(chain + [c], first, c.newName)
  {
  }

  lemma RenameElsewhere(env: Env, s: Ledger, tac: string, name: string, t: string)
    requires t !in s.tacs
    ensures var u := Rename(env, s, tac, name).0;
            t !in u.tacs && ChangesOf(u.nameChanges, t) == ChangesOf(s.nameChanges, t)
  {
    var (u, r) := Rename(env, s, tac, name);
    if r.Ok? {
      ChangesAfter(s.nameChanges, NameChange(tac, s.tacs[tac].name, env.strip(name)), t);
    }
  }
}
