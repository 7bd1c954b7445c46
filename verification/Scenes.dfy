/** Small ledgers that runs reach, and letters that pass every gate there. */
module Scenes {
  import opened Tables
  import opened Identifiers
  import opened Deliveries
  import opened BusRuns
  import R = Registration
  import S = Sending

  // ─── building ledgers ─────────────────────────────────────────

  const AGENT := Node(false, None, 0, None)

  /** Any engine, with any id it mints for a tac of any name. */
  datatype Setting = Setting(env: Env, tac: string, name: string)

  /** The id is a UUID, and the name is one that the rules accept and that is no node's name here. */
  predicate Usable(w: Setting) {
    && IsCanonicalUuid(w.tac) && w.env.nameOk(w.name)
    && var shown := w.env.strip(w.name); shown != "a" && shown != "b" && shown != "c" && shown != "all"
  }

  function Room(w: Setting): Tac {
    var shown := w.env.strip(w.name);
    Tac(shown, w.env.fold(shown), None, None)
  }

  function Agent(n: string): R.Registration {
    R.Registration(n, false, None, "", "", "", R.Unset, R.Unset, R.Unset, R.Unset, "", "", "", 0)
  }

  lemma Registers(env: Env, s: Ledger, n: string)
    requires Reached(env, s) && IsSafeNodeId(n) && n !in s.nodes && n !in s.removed
    ensures Reached(env, s.(nodes := s.nodes[n := AGENT]))
  {
    assert Step(env, s, Register(Agent(n))) == s.(nodes := s.nodes[n := AGENT]);
    ReachedStep(env, s, Register(Agent(n)));
  }

  lemma Opens(w: Setting, s: Ledger)
    requires Usable(w) && Reached(w.env, s) && s.tacs == map[] && w.env.strip(w.name) !in s.nodes
    ensures Reached(w.env, s.(tacs := map[w.tac := Room(w)]))
  {
    var op := CreateTac(w.name, None, w.tac);
    assert s.tacs[w.tac := Room(w)] == map[w.tac := Room(w)];
    assert Step(w.env, s, op) == s.(tacs := map[w.tac := Room(w)]);
    ReachedStep(w.env, s, op);
  }

  lemma Joins(w: Setting, s: Ledger, n: string)
    requires Reached(w.env, s) && w.tac in s.tacs && n in s.nodes && n !in s.removed
    ensures Reached(w.env, s.(members := s.members + {(w.tac, n)}))
  {
    assert Step(w.env, s, AddMember(w.tac, n)) == s.(members := s.members + {(w.tac, n)});
    ReachedStep(w.env, s, AddMember(w.tac, n));
  }

  /** Two agents. */
  const PAIR := EMPTY.(nodes := map["a" := AGENT, "b" := AGENT])

  lemma PairReached(env: Env)
    ensures Reached(env, PAIR)
  {
    ReachedStart(env);
    Registers(env, EMPTY, "a");
    var one := EMPTY.(nodes := EMPTY.nodes["a" := AGENT]);
    Registers(env, one, "b");
    assert one.nodes["b" := AGENT] == PAIR.nodes;
  }

  /** Both in one tac. */
  function Hall(w: Setting): Ledger {
    PAIR.(tacs := map[w.tac := Room(w)], members := {(w.tac, "a"), (w.tac, "b")})
  }

  lemma HallReached(w: Setting)
    requires Usable(w)
    ensures Reached(w.env, Hall(w))
  {
    PairReached(w.env);
    Opens(w, PAIR);
    var open := PAIR.(tacs := map[w.tac := Room(w)]);
    Joins(w, open, "a");
    var one := open.(members := open.members + {(w.tac, "a")});
    Joins(w, one, "b");
    assert one.members + {(w.tac, "b")} == {(w.tac, "a"), (w.tac, "b")};
  }

  // ─── letters that pass ────────────────────────────────────────

  function Letter(sender: string, recipients: seq<string>, id: string, tac: Option<string>, listing: seq<string>,
        roster: seq<string>): S.Letter
  {
    S.Letter(sender, recipients, "s", "b", true, "next", NoExpiry, None, Some(id), None, tac, false, "u", listing,
        roster)
  }

  lemma {:induction false} AllActive(s: Ledger, xs: seq<string>)
    requires forall i :: 0 <= i < |xs| ==> S.Active(s, xs[i])
    ensures S.ActiveAmong(s, xs) == xs
  {
    if xs != [] {
      AllActive(s, xs[..|xs| - 1]);
      assert xs == xs[..|xs| - 1] + [xs[|xs| - 1]];
    }
  }

  /** What a letter needs, in plain terms, to pass every gate. */
  predicate Clear(s: Ledger, l: S.Letter) {
    && l.payloadOk && l.expires.NoExpiry? && !l.broadcast && S.Active(s, l.sender) && S.Addressed(l) != []
    && (forall i :: 0 <= i < |S.Addressed(l)| ==> S.Active(s, S.Addressed(l)[i]) && !S.IsProgram(s, S.Addressed(l)[i]))
    && if S.Given(l.tac)
       then IsCanonicalUuid(l.tac.value) && l.tac.value in s.tacs && s.tacs[l.tac.value].closed.None?
            && !S.UnopenedInTac(s, l.sender, l.tac.value) && l.listing != []
       else forall i :: 0 <= i < |S.Addressed(l)| ==> !S.UnopenedFrom(s, l.sender, S.Addressed(l)[i])
  }

  lemma SomeElement(xs: seq<string>)
    ensures xs == [] || exists x :: x in xs
  {
    assert xs != [] ==> xs[0] in xs;
  }

  lemma ClearIsFree(s: Ledger, l: S.Letter)
    requires Clear(s, l)
    ensures S.Valid(s, l) == S.Addressed(l) && S.Blocked(s, l) == []
  {
    AllActive(s, S.Addressed(l));
    var blocked := S.Blocked(s, l);
    SomeElement(blocked);
  }

  lemma ClearPasses(s: Ledger, l: S.Letter)
    requires Clear(s, l)
    ensures S.Gate(s, l).None? && S.Valid(s, l) == S.Addressed(l)
  {
    ClearIsFree(s, l);
  }

  lemma NoMailNoGate(s: Ledger, node: string, tac: string, other: string)
    requires forall i :: 0 <= i < |s.deliveries| ==> s.deliveries[i].recipient != node
    ensures !S.UnopenedInTac(s, node, tac) && !S.UnopenedFrom(s, node, other)
  {
  }

  /** A clear letter with a new id and no reply is stored as its envelope and its rows. */
  lemma ClearIsStored(env: Env, s: Ledger, l: S.Letter)
    requires Clear(s, l) && l.priority == "next" && l.replyTo.None? && S.Given(l.messageId)
    requires Find(s.messages, l.messageId.value).None? && S.Distinct(S.Addressed(l))
    ensures S.Send(env, s, l) == (S.Append(s, S.Envelope(env, s.messages, l), S.Addressed(l)),
            S.Stored(l.messageId.value, S.Addressed(l)))
  {
    ClearPasses(s, l);
    S.StoredWhen(env, s, l);
    S.StoredFacts(env, s, l);
  }

  // ─── one step further ─────────────────────────────────────────

  ghost predicate Leads(env: Env, s: Ledger, op: Op, t: Ledger) {
    Enabled(s, op) && t == Step(env, s, op)
  }

  lemma LeadsOn(env: Env, s: Ledger, op: Op, t: Ledger)
    requires Reached(env, s) && Leads(env, s, op, t)
    ensures Reached(env, t)
  {
    ReachedStep(env, s, op);
  }

  lemma SendLeads(env: Env, s: Ledger, l: S.Letter)
    requires S.Supplied(s, l)
    ensures Leads(env, s, Send(l), S.Send(env, s, l).0)
  {
  }

  lemma SentAhead(env: Env, s: Ledger, l: S.Letter)
    requires Reached(env, s) && S.Supplied(s, l) && Clear(s, l) && l.priority == "next" && l.replyTo.None?
             && S.Given(l.messageId)
    requires Find(s.messages, l.messageId.value).None? && S.Distinct(S.Addressed(l))
    ensures var t := S.Append(s, S.Envelope(env, s.messages, l), S.Addressed(l));
            Leads(env, s, Send(l), t) && Reached(env, t)
  {
    SendLeads(env, s, l);
    assert S.Send(env, s, l).0 == S.Append(s, S.Envelope(env, s.messages, l), S.Addressed(l)) by {
      ClearIsStored(env, s, l);
    }
    LeadsOn(env, s, Send(l), S.Send(env, s, l).0);
  }

  const TO_A := Letter("b", ["a"], "n", None, [], ["a"])

  const TO_B := Letter("a", ["b"], "m", None, [], ["b"])

  lemma PairLetters(env: Env)
    ensures S.Supplied(PAIR, TO_A) && S.Supplied(PAIR, TO_B) && Clear(PAIR, TO_A) && Clear(PAIR, TO_B)
  {
    assert S.Everyone(PAIR, TO_A) == {"a"} && S.Everyone(PAIR, TO_B) == {"b"};
  }

  lemma FirstUnopened(env: Env, s: Ledger, l: S.Letter, node: string)
    requires s.messages == [] && s.deliveries == []
    ensures var t := S.Append(s, S.Envelope(env, [], l), [node]);
            && t.deliveries == [Delivery(S.MessageId(l), node, Accepted, 0, None, None)]
            && (S.Given(l.tac) ==> S.UnopenedInTac(t, node, l.tac.value))
            && (l.tac.None? && !l.broadcast ==> S.UnopenedFrom(t, node, l.sender))
  {
    var t := S.Append(s, S.Envelope(env, [], l), [node]);
    assert Find(t.messages, S.MessageId(l)) == Some(t.messages[0]);
    assert t.deliveries[0] == Delivery(S.MessageId(l), node, Accepted, 0, None, None);
    assert S.Given(l.tac) ==> InTac(t.messages, t.deliveries[0].mid, l.tac.value);
    assert l.tac.None? && !l.broadcast ==> S.DirectFrom(t.messages, t.deliveries[0].mid, l.sender);
  }
}
