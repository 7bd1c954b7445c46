/** Runs that lead where the code and the expectation part. */
module Witnesses {
  import opened Tables
  import opened Identifiers
  import opened Deliveries
  import opened BusRuns
  import opened Overlaps
  import opened Races
  import opened Scenes
  import A = Admin
  import H = AuditHistory
  import M = MailHistory
  import O = OverlapHistory
  import R = Registration
  import S = Sending
  import T = Tacs
  import Base58
  import RouteHistory

  // ─── a member called "all" ────────────────────────────────────

  /** Three agents, one of them called "all" and alone in a tac. */
  function Crowd(w: Setting): Ledger {
    EMPTY.(nodes := map["a" := AGENT, "all" := AGENT, "c" := AGENT],
           tacs := map[w.tac := Room(w)], members := {(w.tac, "all")})
  }

  lemma CrowdReached(w: Setting)
    requires Usable(w)
    ensures Reached(w.env, Crowd(w))
  {
    ReachedStart(w.env);
    Registers(w.env, EMPTY, "a");
    var one := EMPTY.(nodes := EMPTY.nodes["a" := AGENT]);
    Registers(w.env, one, "all");
    var two := one.(nodes := one.nodes["all" := AGENT]);
    Registers(w.env, two, "c");
    var three := two.(nodes := two.nodes["c" := AGENT]);
    assert three.nodes == map["a" := AGENT, "all" := AGENT, "c" := AGENT];
    Opens(w, three);
    var open := three.(tacs := map[w.tac := Room(w)]);
    Joins(w, open, "all");
    assert open.members + {(w.tac, "all")} == {(w.tac, "all")};
  }

  function Shout(w: Setting): S.Letter {
    Letter("a", [], "m", Some(w.tac), ["all"], ["all", "c"])
  }

  lemma ShoutSupplied(w: Setting)
    requires Usable(w)
    ensures S.Supplied(Crowd(w), Shout(w))
    ensures S.FanOut(Crowd(w), Shout(w)) == {"all"}
  {
    var s := Crowd(w);
    assert "a" != "c" && "all" != "a" && "all" != "c" by {
      assert "a"[0] != "c"[0] && |"all"| != |"a"|;
    }
    var m := (w.tac, "all");
    assert m in s.members && m.1 !in s.removed && m.1 != Shout(w).sender;
    var fan := S.FanOut(s, Shout(w));
    assert m.0 == Shout(w).tac.value && S.Given(Shout(w).tac);
    assert "all" in fan;
    forall x | x in fan ensures x == "all" { assert exists p :: p in s.members && p.1 == x; }
    assert fan == {"all"};
    assert S.Everyone(s, Shout(w)) == {"all", "c"};
  }

  lemma ShoutStored(w: Setting)
    requires Usable(w)
    ensures var s := Crowd(w);
            S.Send(w.env, s, Shout(w)) == (S.Append(s, S.Envelope(w.env, [], Shout(w)), ["all", "c"]),
                S.Stored("m", ["all", "c"]))
  {
    var s := Crowd(w);
    assert S.Addressed(Shout(w)) == ["all", "c"];
    NoMailNoGate(s, "a", w.tac, "");
    assert "all" != "c" by { assert |"all"| != |"c"|; }
    ClearIsStored(w.env, s, Shout(w));
  }

  /** The letter is for one member and is delivered to a node that is not in the tac. */
  lemma TacLeaksPastItsMembers(w: Setting)
    requires Usable(w)
    ensures var s := Crowd(w); var (t, reply) := S.Send(w.env, s, Shout(w));
            && Reached(w.env, s) && Enabled(s, Send(Shout(w))) && Reached(w.env, t)
            && (w.tac, "c") !in s.members && reply == S.Stored("m", ["all", "c"])
            && t.deliveries == [Delivery("m", "all", Accepted, 0, None, None),
                Delivery("m", "c", Accepted, 0, None, None)]
  {
    CrowdReached(w);
    ShoutSupplied(w);
    SendLeads(w.env, Crowd(w), Shout(w));
    LeadsOn(w.env, Crowd(w), Send(Shout(w)), S.Send(w.env, Crowd(w), Shout(w)).0);
    ShoutStored(w);
    OthersAreOut(w);
  }

  lemma OthersAreOut(w: Setting)
    ensures (w.tac, "c") !in Crowd(w).members
    ensures S.Rows("m", ["all", "c"]) ==
            [Delivery("m", "all", Accepted, 0, None, None), Delivery("m", "c", Accepted, 0, None, None)]
  {
    assert "all" != "c" by { assert |"all"| != |"c"|; }
  }

  // ─── a resend to somewhere else ───────────────────────────────

  function Again(w: Setting): S.Letter {
    TO_B.(tac := Some(w.tac), listing := ["b"])
  }

  function Noted(w: Setting): Ledger {
    S.Send(w.env, Hall(w), TO_B).0
  }

  lemma NoteStored(w: Setting)
    requires Usable(w)
    ensures Reached(w.env, Noted(w))
    ensures Noted(w) == S.Append(Hall(w), S.Envelope(w.env, [], TO_B), ["b"])
  {
    var s := Hall(w);
    HallReached(w);
    assert S.Everyone(s, TO_B) == {"b"};
    ReachedStep(w.env, s, Send(TO_B));
    NoMailNoGate(s, "a", w.tac, "b");
    ClearIsStored(w.env, s, TO_B);
  }

  lemma NotedMail(w: Setting)
    requires Usable(w)
    ensures var t := Noted(w);
            && t.deliveries == [Delivery("m", "b", Accepted, 0, None, None)]
            && t.messages == [S.Envelope(w.env, [], TO_B)] && S.RecipientsOf(t.deliveries, "m") == multiset{"b"}
            && t == Hall(w).(messages := t.messages, deliveries := t.deliveries)
  {
    NoteStored(w);
    var t := Noted(w);
    assert t.deliveries == [Delivery("m", "b", Accepted, 0, None, None)];
    assert t.deliveries[..0] == [];
    assert S.RecipientsOf([], "m") == multiset{};
  }

  /** Who the tac and the roster are in the hall, whatever mail there is. */
  lemma HallSupplies(w: Setting, s: Ledger, l: S.Letter)
    requires w.tac != "" && s == Hall(w).(messages := s.messages, deliveries := s.deliveries)
    requires l.sender == "a" && l.tac == Some(w.tac) && l.listing == ["b"] && l.roster == ["b"]
    requires l.minted != "" && Find(s.messages, l.minted).None?
    ensures S.Supplied(s, l)
  {
    assert (w.tac, "b") in s.members;
    assert S.FanOut(s, l) == {"b"};
    assert S.Everyone(s, l) == {"b"};
  }

  lemma AgainClear(w: Setting, s: Ledger)
    requires Usable(w) && s == Hall(w).(messages := s.messages, deliveries := s.deliveries)
    requires forall i :: 0 <= i < |s.deliveries| ==> s.deliveries[i].recipient != "a"
    ensures Clear(s, Again(w))
  {
    NoMailNoGate(s, "a", w.tac, "b");
    assert S.Addressed(Again(w)) == ["b"];
  }

  lemma AgainSame(env: Env, s: Ledger, w: Setting)
    requires s.messages == [S.Envelope(env, [], TO_B)]
    ensures Find(s.messages, "m") == Some(s.messages[0])
            && S.SameLetter(s.messages[0], S.Envelope(env, s.messages, Again(w)))
  {
  }

  /** A message was sent to one node directly. The same call for a whole tac that resolves to the
      same node is answered as stored, and nothing is. */
  lemma ResendToATacIsSwallowed(w: Setting)
    requires Usable(w)
    ensures var t := Noted(w);
            && Reached(w.env, t) && Find(t.messages, "m").Some? && Find(t.messages, "m").value.tac.None?
            && S.Given(Again(w).tac) && S.Supplied(t, Again(w)) && S.Send(w.env, t, Again(w)) == (t, S.Resent("m"))
  {
    NoteStored(w);
    NotedMail(w);
    var t := Noted(w);
    HallSupplies(w, t, Again(w));
    AgainClear(w, t);
    ClearPasses(t, Again(w));
    AgainSame(w.env, t, w);
    assert multiset(["b"]) == multiset{"b"};
    M.ResendReply(w.env, t, Again(w), t.messages[0]);
  }

  // ─── something comes between the gates and the insert ─────────

  function FromA(w: Setting): S.Letter {
    Letter("a", [], "m", Some(w.tac), ["b"], ["b"])
  }

  function FromB(w: Setting): S.Letter {
    Letter("b", [], "n", Some(w.tac), ["a"], ["a"])
  }

  /** A call passed its checks at s, and its transaction ran at t, which gave u. */
  ghost predicate Overtaken(env: Env, s: Ledger, op: Op, t: Ledger, u: Ledger) {
    && Reached(env, s) && Enabled(s, op) && Prepared(env, s, op).Some?
    && Reached(env, t) && u == Commit(env, t, Prepared(env, s, op).value)
  }

  lemma CommitsLate(env: Env, s: Ledger, op: Op, t: Ledger, w: Write)
    requires Reached(env, s) && Enabled(s, op) && Prepared(env, s, op) == Some(w) && Reached(env, t)
    ensures Overtaken(env, s, op, t, Commit(env, t, w))
  {
  }

  lemma InsertedLate(env: Env, s: Ledger, l: S.Letter, t: Ledger)
    requires Reached(env, s) && S.Supplied(s, l) && Clear(s, l) && Reached(env, t)
    requires Accepts(t, S.Envelope(env, s.messages, l), S.Addressed(l))
    ensures Overtaken(env, s, Send(l), t, S.Append(t, S.Envelope(env, s.messages, l), S.Addressed(l)))
  {
    var m := S.Envelope(env, s.messages, l);
    ClearPasses(s, l);
    SendIs(env, s, l);
    InsertIs(env, t, m, S.Addressed(l));
    CommitsLate(env, s, Send(l), t, Insert(m, S.Addressed(l)));
  }

  lemma HallLetters(w: Setting)
    requires Usable(w)
    ensures var s := Hall(w);
            && S.Supplied(s, FromA(w)) && S.Supplied(s, FromB(w)) && Clear(s, FromA(w)) && Clear(s, FromB(w))
  {
    var s := Hall(w);
    assert (w.tac, "a") in s.members && (w.tac, "b") in s.members;
    assert S.FanOut(s, FromA(w)) == {"b"} && S.FanOut(s, FromB(w)) == {"a"};
    assert S.Everyone(s, FromA(w)) == {"b"} && S.Everyone(s, FromB(w)) == {"a"};
  }

  /** Two members speak at once: the second to be stored has not opened the first. */
  lemma ListeningOrderBreaks(w: Setting) returns (t: Ledger, u: Ledger)
    requires Usable(w)
    ensures Leads(w.env, Hall(w), Send(FromA(w)), t) && Overtaken(w.env, Hall(w), Send(FromB(w)), t, u)
    ensures !S.ListenedFirst(u)
  {
    HallReached(w);
    HallLetters(w);
    SentAhead(w.env, Hall(w), FromA(w));
    t := S.Append(Hall(w), S.Envelope(w.env, [], FromA(w)), ["b"]);
    var m := S.Envelope(w.env, [], FromB(w));
    InsertedLate(w.env, Hall(w), FromB(w), t);
    u := S.Append(t, m, ["a"]);
    FirstUnopened(w.env, Hall(w), FromA(w), "b");
    UnheardSpeaker(t, m, ["a"]);
  }

  /** Two nodes write to each other at once, and neither may answer the other any more. */
  lemma BothBlock(env: Env) returns (t: Ledger, u: Ledger)
    ensures Leads(env, PAIR, Send(TO_B), t) && Overtaken(env, PAIR, Send(TO_A), t, u)
    ensures S.UnopenedFrom(u, "a", "b") && S.UnopenedFrom(u, "b", "a") && !S.NoMutualBlock(u)
  {
    PairReached(env);
    PairLetters(env);
    SentAhead(env, PAIR, TO_B);
    t := S.Append(PAIR, S.Envelope(env, [], TO_B), ["b"]);
    var m := S.Envelope(env, [], TO_A);
    InsertedLate(env, PAIR, TO_A, t);
    u := S.Append(t, m, ["a"]);
    FirstUnopened(env, PAIR, TO_B, "b");
    OldMailStays(t, m, ["a"], "b", "a");
    NewMailArrives(t, m, ["a"], "a");
  }

  lemma HallCloses(w: Setting, now: int) returns (t: Ledger)
    requires Usable(w)
    ensures Leads(w.env, Hall(w), CloseTac(w.tac, None, None, now), t) && Reached(w.env, t)
    ensures t == Hall(w).(tacs := t.tacs) && w.tac in t.tacs && t.tacs[w.tac].closed.Some?
  {
    t := Step(w.env, Hall(w), CloseTac(w.tac, None, None, now));
    HallReached(w);
    LeadsOn(w.env, Hall(w), CloseTac(w.tac, None, None, now), t);
  }

  /** A tac is closed while a letter to it is on its way, and the letter lands in the closed tac. */
  lemma ClosedTacTakesMail(w: Setting, now: int) returns (t: Ledger, u: Ledger)
    requires Usable(w)
    ensures Leads(w.env, Hall(w), CloseTac(w.tac, None, None, now), t)
            && Overtaken(w.env, Hall(w), Send(FromA(w)), t, u)
    ensures !ClosedStay(t, u)
  {
    t := HallCloses(w, now);
    HallReached(w);
    HallLetters(w);
    InsertedLate(w.env, Hall(w), FromA(w), t);
    u := S.Append(t, S.Envelope(w.env, [], FromA(w)), ["b"]);
    LateInsertAndClosing(t, S.Envelope(w.env, [], FromA(w)), ["b"]);
  }

  function Program(n: string): R.Registration {
    Agent(n).(program := true)
  }

  const SENDS_ONLY := Node(true, None, 0, None)

  const GONE := PAIR.(nodes := map["a" := AGENT], removals := [Removal("b", Purge)])

  lemma PurgedPair()
    ensures A.Remove(PAIR, "b", true) == (GONE, A.Ok)
  {
    assert PAIR.nodes - {"b"} == map["a" := AGENT];
    assert PAIR.removed - {"b"} == PAIR.removed;
    assert PAIR.removals + [Removal("b", Purge)] == [Removal("b", Purge)];
  }

  lemma ReplacedPair(env: Env) returns (gone: Ledger, t: Ledger)
    ensures Leads(env, PAIR, Remove("b", true), gone) && Leads(env, gone, Register(Program("b")), t) && Reached(env, t)
    ensures t == gone.(nodes := map["a" := AGENT, "b" := SENDS_ONLY]) && t.messages == [] && t.deliveries == []
  {
    PairReached(env);
    PurgedPair();
    gone := GONE;
    LeadsOn(env, PAIR, Remove("b", true), gone);
    t := gone.(nodes := map["a" := AGENT, "b" := SENDS_ONLY]);
    ProgramRegisters(gone);
    LeadsOn(env, gone, Register(Program("b")), t);
  }

  lemma ProgramRegisters(s: Ledger)
    requires s.nodes == map["a" := AGENT] && s.removed == {} && s.routes == map[]
    ensures R.Register(s, Program("b")) == s.(nodes := map["a" := AGENT, "b" := SENDS_ONLY])
  {
    assert R.NodeAfter(s, Program("b")) == SENDS_ONLY;
    assert s.nodes["b" := SENDS_ONLY] == map["a" := AGENT, "b" := SENDS_ONLY];
    assert R.RoutesAfter(s, Program("b")) == s.routes;
  }

  /** The addressee is purged and its name registered as a program meanwhile. */
  lemma ProgramGetsMail(env: Env) returns (gone: Ledger, t: Ledger, u: Ledger)
    ensures Leads(env, PAIR, Remove("b", true), gone) && Leads(env, gone, Register(Program("b")), t)
            && Overtaken(env, PAIR, Send(TO_B), t, u)
    ensures !S.ProgramsReceiveNothing(u)
  {
    gone, t := ReplacedPair(env);
    PairReached(env);
    PairLetters(env);
    InsertedLate(env, PAIR, TO_B, t);
    u := S.Append(t, S.Envelope(env, [], TO_B), ["b"]);
    LateInsertAndPrograms(t, S.Envelope(env, [], TO_B), ["b"]);
  }

  // ─── something comes between the lookup and the log entry ─────

  /** A second name for the tac of this setting. */
  predicate Nameable(w: Setting, name: string) {
    w.env.nameOk(name) && var shown := w.env.strip(name); shown != "a" && shown != "b"
  }

  lemma HallRenames(w: Setting, name: string)
    requires Usable(w) && Nameable(w, name)
    ensures T.Rename(w.env, Hall(w), w.tac, name).1.Ok?
    ensures Prepared(w.env, Hall(w), RenameTac(w.tac, name)) ==
            Some(PutName(w.tac, w.env.strip(w.name), w.env.strip(name)))
  {
  }

  lemma HallNames(w: Setting)
    requires Usable(w)
    ensures H.NamesTraced(Hall(w), w.tac, w.env.strip(w.name)) && AllSane(Hall(w))
  {
  }

  /** Two renames of a tac both read the name it has, and the log no longer leads to its name. */
  lemma NameChainBreaks(w: Setting, first: string, second: string) returns (t: Ledger, u: Ledger)
    requires Usable(w) && Nameable(w, first) && Nameable(w, second) && w.env.strip(first) != w.env.strip(w.name)
    ensures Leads(w.env, Hall(w), RenameTac(w.tac, first), t)
            && Overtaken(w.env, Hall(w), RenameTac(w.tac, second), t, u)
    ensures H.NamesTraced(t, w.tac, w.env.strip(w.name)) && !H.NamesTraced(u, w.tac, w.env.strip(w.name))
  {
    var name := w.env.strip(w.name);
    HallReached(w);
    HallRenames(w, first);
    HallRenames(w, second);
    t := FirstRename(w, first);
    var late := PutName(w.tac, name, w.env.strip(second));
    CommitsLate(w.env, Hall(w), RenameTac(w.tac, second), t, late);
    u := Commit(w.env, t, late);
    O.RenameAndNames(w.env, t, late, w.tac, name);
  }

  lemma HallRenamed(w: Setting, name: string)
    requires Usable(w) && Nameable(w, name)
    ensures var t := Step(w.env, Hall(w), RenameTac(w.tac, name));
            t.tacs.Keys == {w.tac} && t.tacs[w.tac].name == w.env.strip(name)
            && t == T.Rename(w.env, Hall(w), w.tac, name).0
  {
    HallRenames(w, name);
  }

  lemma FirstRename(w: Setting, first: string) returns (t: Ledger)
    requires Usable(w) && Nameable(w, first)
    ensures Leads(w.env, Hall(w), RenameTac(w.tac, first), t) && Reached(w.env, t)
    ensures H.NamesTraced(t, w.tac, w.env.strip(w.name)) && t.tacs[w.tac].name == w.env.strip(first)
            && t.tacs.Keys == {w.tac}
  {
    HallReached(w);
    HallRenamed(w, first);
    HallNames(w);
    t := Step(w.env, Hall(w), RenameTac(w.tac, first));
    LeadsOn(w.env, Hall(w), RenameTac(w.tac, first), t);
    T.RenameExtendsChain(w.env, Hall(w), w.tac, first, w.tac, w.env.strip(w.name));
  }

  lemma TwoKeys() returns (first: string, second: string)
    ensures A.IsKey(first) && A.IsKey(second) && first != second && first != "" && second != ""
  {
    var ones: seq<Base58.byte>, twos: seq<Base58.byte> := seq(32, _ => 1), seq(32, _ => 2);
    Base58.DecodeEncode(ones);
    Base58.DecodeEncode(twos);
    assert ones[0] != twos[0];
    first, second := Base58.Encode(ones), Base58.Encode(twos);
    H.EmptyIsNoKey();
  }

  lemma PairRotates(env: Env, key: string)
    requires A.IsKey(key) && key != ""
    ensures Prepared(env, PAIR, Rotate("a", key)) == Some(PutKey("a", None, key))
    ensures Step(env, PAIR, Rotate("a", key)) == A.Rekeyed(PAIR, "a", None, key)
  {
  }

  lemma OneRotation(env: Env, key: string)
    ensures var t := A.Rekeyed(PAIR, "a", None, key);
            && A.RotationsOf(t.rotations, "a") == [Rotation("a", None, key)] && H.KeyOf(t, "a") == Some(key)
            && H.KeysTraced(t, "a") && O.LastKey(t, "a") && AllSane(t) && "a" in t.nodes
  {
    A.RotationsAfter([], Rotation("a", None, key), "a");
    assert [] + [Rotation("a", None, key)] == [Rotation("a", None, key)];
  }

  /** Two rotations of a key both read the key the node has, and the log is no chain any more. */
  lemma KeyChainBreaks(env: Env) returns (first: string, second: string, t: Ledger, u: Ledger)
    ensures Leads(env, PAIR, Rotate("a", first), t) && Overtaken(env, PAIR, Rotate("a", second), t, u)
    ensures H.KeysTraced(t, "a") && !H.KeysTraced(u, "a")
  {
    first, second := TwoKeys();
    PairReached(env);
    PairRotates(env, first);
    PairRotates(env, second);
    t := A.Rekeyed(PAIR, "a", None, first);
    LeadsOn(env, PAIR, Rotate("a", first), t);
    OneRotation(env, first);
    CommitsLate(env, PAIR, Rotate("a", second), t, PutKey("a", None, second));
    u := Commit(env, t, PutKey("a", None, second));
    O.CommitAndKeys(env, t, PutKey("a", None, second), "a");
  }

  /** A soft removal looks the node up, a purge deletes it, and then a name is removed that is no
      node. */
  lemma RemovedIsNoNode(env: Env) returns (t: Ledger, u: Ledger)
    ensures Leads(env, PAIR, Remove("b", true), t) && Overtaken(env, PAIR, Remove("b", false), t, u)
    ensures "b" in u.removed && "b" !in u.nodes && !A.RemovedAreNodes(u)
  {
    PairReached(env);
    PurgedPair();
    t := GONE;
    LeadsOn(env, PAIR, Remove("b", true), t);
    CommitsLate(env, PAIR, Remove("b", false), t, PutRemoved("b"));
    u := Commit(env, t, PutRemoved("b"));
  }

  // ─── an announcement and a program ────────────────────────────

  /** Two agents, one of them called "all", and a program. */
  const CAST := EMPTY.(nodes := map["a" := AGENT, "all" := AGENT, "p" := SENDS_ONLY])

  lemma CastReached(env: Env)
    ensures Reached(env, CAST)
  {
    ReachedStart(env);
    Registers(env, EMPTY, "a");
    var one := EMPTY.(nodes := EMPTY.nodes["a" := AGENT]);
    Registers(env, one, "all");
    var two := one.(nodes := one.nodes["all" := AGENT]);
    assert two.nodes["p" := SENDS_ONLY] == CAST.nodes;
    assert R.RoutesAfter(two, Program("p")) == two.routes;
    assert Leads(env, two, Register(Program("p")), CAST);
    LeadsOn(env, two, Register(Program("p")), CAST);
  }

  const CALL := Letter("a", [], "m", None, ["all"], ["all", "p"]).(broadcast := true)

  lemma CallSupplied()
    ensures S.Supplied(CAST, CALL) && S.FanOut(CAST, CALL) == {"all"}
    ensures "p" in S.Everyone(CAST, CALL) && S.IsProgram(CAST, "p")
  {
    assert "a" != "p" && "all" != "a" && "all" != "p" by {
      assert "a"[0] != "p"[0] && |"all"| != |"a"|;
    }
    assert CAST.nodes.Keys == {"a", "all", "p"};
    assert S.FanOut(CAST, CALL) == {"all"};
    assert S.Everyone(CAST, CALL) == {"all", "p"};
  }

  /** An announcement, which is never meant for programs, is refused because of one. */
  lemma AnnouncementIsRefused(env: Env)
    ensures Reached(env, CAST) && Enabled(CAST, Send(CALL))
    ensures S.Send(env, CAST, CALL) == (CAST, S.Refused(S.ProgramRecipient))
  {
    CastReached(env);
    CallSupplied();
    S.BroadcastRefusedForPrograms(CAST, CALL);
  }

  // ─── a mark without proof ─────────────────────────────────────

  /** A direct call that passes a truthy value for the proof. */
  const BLUFF := Agent("a").(adapter := "tmux", target := "t", host := "h", verified := R.Junk)

  /** The first registration of all marks its place as verified without having proved it. */
  lemma UnprovenIsMarked(env: Env) returns (t: Ledger)
    ensures Leads(env, EMPTY, Register(BLUFF), t) && Reached(env, t)
    ensures BLUFF.verified != R.On && "a" in t.routes && t.routes["a"].active && t.routes["a"].verified
  {
    ReachedStart(env);
    t := R.Register(EMPTY, BLUFF);
    LeadsOn(env, EMPTY, Register(BLUFF), t);
    RouteHistory.MarkWithoutProof(EMPTY, BLUFF);
  }
}
