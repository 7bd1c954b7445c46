/** Who may send what to whom, in plain terms: when the gates let a letter through, whom it is for,
    and how a repeated id is answered. */
module SendRules {
  import opened Tables
  import opened Identifiers
  import D = Deliveries
  import S = Sending

  // ─── whom it is for ───────────────────────────────────────────

  predicate IsActive(s: Ledger, n: string) {
    n in s.nodes && n !in s.removed
  }

  predicate ToTac(l: S.Letter) {
    l.tac.Some? && l.tac.value != ""
  }

  /** The names the letter resolves to: a tac's other members, for an announcement the other active
      agents, else those it lists; and the one name "all" stands for every other active node. */
  ghost predicate IsFor(s: Ledger, l: S.Letter, n: string) {
    if ToTac(l) then
      if OnlyAll(s, l) then IsActive(s, n) && n != l.sender
      else (l.tac.value, n) in s.members && n !in s.removed && n != l.sender
    else if l.broadcast then
      if OnlyAll(s, l) then IsActive(s, n) && n != l.sender
      else IsActive(s, n) && !s.nodes[n].isProgram && n != l.sender
    else if l.recipients == ["all"] then IsActive(s, n) && n != l.sender
    else n in l.recipients
  }

  /** The query answers with the single name "all". */
  ghost predicate OnlyAll(s: Ledger, l: S.Letter) {
    if ToTac(l) then forall n :: (l.tac.value, n) in s.members && n !in s.removed && n != l.sender <==> n == "all"
    else forall n :: IsActive(s, n) && !s.nodes[n].isProgram && n != l.sender <==> n == "all"
  }

  lemma OnlyAllIs(s: Ledger, l: S.Letter)
    requires S.Supplied(s, l) && (ToTac(l) || l.broadcast)
    ensures OnlyAll(s, l) <==> l.listing == ["all"]
    ensures forall n :: n in l.listing <==> n in S.FanOut(s, l)
  {
    var fan := S.FanOut(s, l);
    S.ListsOne(l.listing, fan, "all");
    FanOutIs(s, l);
    if OnlyAll(s, l) {
      forall n ensures n in fan <==> n == "all" {
        assert ToTac(l) ==> (n in fan <==> (l.tac.value, n) in s.members && n !in s.removed && n != l.sender);
      }
      assert fan == {"all"};
    }
    if fan == {"all"} {
      assert forall n :: n in fan <==> n == "all";
    }
  }

  lemma FanOutIs(s: Ledger, l: S.Letter)
    ensures ToTac(l) ==> forall n :: n in S.FanOut(s, l)
                                     <==> (l.tac.value, n) in s.members && n !in s.removed && n != l.sender
    ensures !ToTac(l) ==> forall n :: n in S.FanOut(s, l) <==> IsActive(s, n) && !s.nodes[n].isProgram && n != l.sender
  {
    if ToTac(l) {
      forall n ensures n in S.FanOut(s, l) <==> (l.tac.value, n) in s.members && n !in s.removed && n != l.sender {
        var p := (l.tac.value, n);
        assert p in s.members && p.0 == l.tac.value && p.1 !in s.removed && p.1 != l.sender ==> p.1 in S.FanOut(s, l);
      }
    }
  }

  lemma AddressedIsFor(s: Ledger, l: S.Letter)
    requires S.Supplied(s, l)
    ensures forall n :: n in S.Addressed(l) <==> IsFor(s, l, n)
  {
    assert forall n :: n in l.roster <==> IsActive(s, n) && n != l.sender;
    if ToTac(l) || l.broadcast {
      OnlyAllIs(s, l);
      FanOutIs(s, l);
    }
  }

  /** A stored letter reaches exactly the active nodes it is for. */
  lemma ReachesExactly(env: Env, s: Ledger, l: S.Letter)
    requires S.Supplied(s, l) && S.Send(env, s, l).1.Stored?
    ensures forall n :: n in S.Send(env, s, l).1.recipients <==> IsFor(s, l, n) && IsActive(s, n)
  {
    S.StoredFacts(env, s, l);
    AddressedIsFor(s, l);
  }

  // ─── when it passes ───────────────────────────────────────────

  /** A delivery to this node that has not been opened, of a message in this tac. */
  ghost predicate Unheard(s: Ledger, node: string, tac: string) {
    exists i, j :: 0 <= i < |s.deliveries| && 0 <= j < |s.messages|
                   && s.deliveries[i].recipient == node
                      && (s.deliveries[i].state.Accepted? || s.deliveries[i].state.Claimed?)
                   && s.messages[j].id == s.deliveries[i].mid && s.messages[j].tac == Some(tac)
  }

  /** The same for direct mail from one node. */
  ghost predicate Unread(s: Ledger, node: string, from: string) {
    exists i, j :: 0 <= i < |s.deliveries| && 0 <= j < |s.messages|
                   && s.deliveries[i].recipient == node
                      && (s.deliveries[i].state.Accepted? || s.deliveries[i].state.Claimed?)
                   && s.messages[j].id == s.deliveries[i].mid && s.messages[j].sender == from
                   && s.messages[j].tac.None? && !s.messages[j].broadcast
  }

  lemma UnheardIs(s: Ledger, node: string, tac: string)
    requires S.WellFormed(s)
    ensures S.UnopenedInTac(s, node, tac) <==> Unheard(s, node, tac)
  {
    if S.UnopenedInTac(s, node, tac) {
      var i :| 0 <= i < |s.deliveries| && s.deliveries[i].recipient == node && D.Open(s.deliveries[i])
               && D.InTac(s.messages, s.deliveries[i].mid, tac);
      var j :| 0 <= j < |s.messages| && s.messages[j] == Find(s.messages, s.deliveries[i].mid).value;
    }
    if Unheard(s, node, tac) {
      var i, j :| 0 <= i < |s.deliveries| && 0 <= j < |s.messages|
                  && s.deliveries[i].recipient == node
                     && (s.deliveries[i].state.Accepted? || s.deliveries[i].state.Claimed?)
                  && s.messages[j].id == s.deliveries[i].mid && s.messages[j].tac == Some(tac);
      FindIs(s.messages, s.messages[j]);
      assert D.InTac(s.messages, s.deliveries[i].mid, tac);
    }
  }

  lemma UnreadIs(s: Ledger, node: string, from: string)
    requires S.WellFormed(s)
    ensures S.UnopenedFrom(s, node, from) <==> Unread(s, node, from)
  {
    if S.UnopenedFrom(s, node, from) {
      var i :| 0 <= i < |s.deliveries| && s.deliveries[i].recipient == node && D.Open(s.deliveries[i])
               && S.DirectFrom(s.messages, s.deliveries[i].mid, from);
      var j :| 0 <= j < |s.messages| && s.messages[j] == Find(s.messages, s.deliveries[i].mid).value;
    }
    if Unread(s, node, from) {
      var i, j :| 0 <= i < |s.deliveries| && 0 <= j < |s.messages|
                  && s.deliveries[i].recipient == node
                     && (s.deliveries[i].state.Accepted? || s.deliveries[i].state.Claimed?)
                  && s.messages[j].id == s.deliveries[i].mid && s.messages[j].sender == from
                  && s.messages[j].tac.None? && !s.messages[j].broadcast;
      FindIs(s.messages, s.messages[j]);
      assert S.DirectFrom(s.messages, s.deliveries[i].mid, from);
    }
  }

  /** The tac exists, is open, has another member, and the sender has heard it out. */
  ghost predicate TacTakes(s: Ledger, l: S.Letter, tac: string) {
    && tac in s.tacs && s.tacs[tac].closed.None? && !Unheard(s, l.sender, tac)
    && exists n :: (tac, n) in s.members && n !in s.removed && n != l.sender
  }

  /** Everyone the letter is for that the sender has not read. */
  ghost predicate Owed(s: Ledger, l: S.Letter, n: string)
    requires l.sender in s.nodes
  {
    && !ToTac(l) && !l.broadcast && !s.nodes[l.sender].isProgram
    && IsFor(s, l, n) && IsActive(s, n) && Unread(s, l.sender, n)
  }

  /** This reason to refuse it applies. */
  ghost predicate Applies(s: Ledger, l: S.Letter, why: S.Refusal) {
    match why
    case BadPayload => !l.payloadOk
    case MalformedExpiry => l.expires.Malformed?
    case UnregisteredSender => l.sender !in s.nodes
    case RemovedSender => l.sender in s.removed
    case BroadcastAndTac => l.broadcast && ToTac(l)
    case TacIdInvalid => ToTac(l) && l.tac.value !in s.tacs && !IsCanonicalUuid(l.tac.value)
    case NoSuchTac => ToTac(l) && l.tac.value !in s.tacs
    case TacClosed => ToTac(l) && l.tac.value in s.tacs && s.tacs[l.tac.value].closed.Some?
    case UnreadInTac => ToTac(l) && Unheard(s, l.sender, l.tac.value)
    case NoOtherMembers => ToTac(l) && !exists n :: (l.tac.value, n) in s.members && n !in s.removed && n != l.sender
    case ProgramRecipient => exists n :: IsFor(s, l, n) && IsActive(s, n) && s.nodes[n].isProgram
    case NoValidRecipients => !exists n :: IsFor(s, l, n) && IsActive(s, n)
    case UnreadFromRecipient(_) => l.sender in s.nodes && exists n :: Owed(s, l, n)
  }

  function Rank(why: S.Refusal): nat {
    match why
    case BadPayload => 0
    case MalformedExpiry => 1
    case UnregisteredSender => 2
    case RemovedSender => 3
    case BroadcastAndTac => 4
    case TacIdInvalid => 5
    case NoSuchTac => 6
    case TacClosed => 7
    case UnreadInTac => 8
    case NoOtherMembers => 9
    case ProgramRecipient => 10
    case NoValidRecipients => 11
    case UnreadFromRecipient(_) => 12
  }

  /** What the gates test is what the reasons say. */
  lemma GatesTest(s: Ledger, l: S.Letter)
    requires S.WellFormed(s) && S.Supplied(s, l)
    ensures ToTac(l) ==> (S.UnopenedInTac(s, l.sender, l.tac.value) <==> Unheard(s, l.sender, l.tac.value))
    ensures ToTac(l) ==> (l.listing == [] <==> Applies(s, l, S.NoOtherMembers))
    ensures forall n :: n in S.Addressed(l) <==> IsFor(s, l, n)
    ensures S.Valid(s, l) == [] <==> Applies(s, l, S.NoValidRecipients)
  {
    AddressedIsFor(s, l);
    if ToTac(l) {
      UnheardIs(s, l.sender, l.tac.value);
      OnlyAllIs(s, l);
      FanOutIs(s, l);
      SomeOrNone(l.listing);
    }
    SomeOrNone(S.Valid(s, l));
  }

  lemma BlockersAreOwed(s: Ledger, l: S.Letter)
    requires S.WellFormed(s) && S.Supplied(s, l) && l.sender in s.nodes
    ensures forall n :: n in S.Blocked(s, l) <==> Owed(s, l, n)
  {
    AddressedIsFor(s, l);
    forall n ensures S.UnopenedFrom(s, l.sender, n) <==> Unread(s, l.sender, n) {
      UnreadIs(s, l.sender, n);
    }
  }

  /** A letter passes the gates exactly when its payload and expiry are sound, its sender is active,
      it is not both an announcement and to a tac, a tac takes it, it is for some active node and no
      active program, and, if it is direct and not from a program, the sender has opened the direct
      mail of everyone it is for. */
  lemma PassesExactly(s: Ledger, l: S.Letter)
    requires S.WellFormed(s) && S.Supplied(s, l)
    ensures S.Gate(s, l).None? <==>
              && l.payloadOk && !l.expires.Malformed? && IsActive(s, l.sender) && !(l.broadcast && ToTac(l))
              && (ToTac(l) ==> TacTakes(s, l, l.tac.value))
              && (exists n :: IsFor(s, l, n) && IsActive(s, n))
              && (forall n :: IsFor(s, l, n) && IsActive(s, n) ==> !s.nodes[n].isProgram)
              && (!ToTac(l) && !l.broadcast && !s.nodes[l.sender].isProgram
                  ==> forall n :: IsFor(s, l, n) && IsActive(s, n) ==> !Unread(s, l.sender, n))
  {
    GatesTest(s, l);
    if l.sender in s.nodes {
      BlockersAreOwed(s, l);
      SomeOrNone(S.Blocked(s, l));
    }
  }

  lemma GivenReasonApplies(s: Ledger, l: S.Letter)
    requires S.WellFormed(s) && S.Supplied(s, l) && S.Gate(s, l).Some?
    ensures Applies(s, l, S.Gate(s, l).value)
  {
    GatesTest(s, l);
    if l.sender in s.nodes {
      BlockersAreOwed(s, l);
      SomeOrNone(S.Blocked(s, l));
    }
  }

  lemma EarlyReasonsRefuse(s: Ledger, l: S.Letter, other: S.Refusal)
    requires Applies(s, l, other) && Rank(other) < 8
    ensures S.Gate(s, l).Some? && Rank(S.Gate(s, l).value) <= Rank(other)
  {
  }

  lemma LaterTestsRefuse(s: Ledger, l: S.Letter)
    ensures ToTac(l) && S.UnopenedInTac(s, l.sender, l.tac.value)
            ==> S.Gate(s, l).Some? && Rank(S.Gate(s, l).value) <= 8
    ensures ToTac(l) && l.listing == [] ==> S.Gate(s, l).Some? && Rank(S.Gate(s, l).value) <= 9
    ensures (exists n :: n in S.Addressed(l) && S.Active(s, n) && S.IsProgram(s, n))
            ==> S.Gate(s, l).Some? && Rank(S.Gate(s, l).value) <= 10
    ensures S.Valid(s, l) == [] ==> S.Gate(s, l).Some? && Rank(S.Gate(s, l).value) <= 11
    ensures S.Blocked(s, l) != [] ==> S.Gate(s, l).Some?
  {
  }

  lemma NoEarlierReason(s: Ledger, l: S.Letter, other: S.Refusal)
    requires S.WellFormed(s) && S.Supplied(s, l)
    ensures match S.Gate(s, l)
            case None => !Applies(s, l, other)
            case Some(why) => Applies(s, l, why) && (Rank(other) < Rank(why) ==> !Applies(s, l, other))
  {
    if S.Gate(s, l).Some? { GivenReasonApplies(s, l); }
    if Applies(s, l, other) {
      LaterTestsRefuse(s, l);
      if Rank(other) < 8 {
        EarlyReasonsRefuse(s, l, other);
      } else if Rank(other) < 12 {
        GatesTest(s, l);
      } else {
        BlockersAreOwed(s, l);
        SomeOrNone(S.Blocked(s, l));
      }
    }
  }

  lemma SameRank(s: Ledger, l: S.Letter, v: S.Refusal, w: S.Refusal)
    requires Rank(v) == Rank(w) && Applies(s, l, v)
    ensures Applies(s, l, w)
  {
  }

  /** A refusal gives the first reason that applies. */
  lemma FirstReason(s: Ledger, l: S.Letter, why: S.Refusal)
    requires S.WellFormed(s) && S.Supplied(s, l)
    ensures S.Gate(s, l).Some? && Rank(S.Gate(s, l).value) == Rank(why) <==>
              Applies(s, l, why) && forall other :: Rank(other) < Rank(why) ==> !Applies(s, l, other)
  {
    forall other { NoEarlierReason(s, l, other); }
    if S.Gate(s, l).Some? && Rank(S.Gate(s, l).value) == Rank(why) { SameRank(s, l, S.Gate(s, l).value, why); }
  }

  /** And the last one names exactly those whose mail is to be read first. */
  lemma NamesWhoIsOwed(s: Ledger, l: S.Letter, blocked: seq<string>)
    requires S.WellFormed(s) && S.Supplied(s, l) && S.Gate(s, l) == Some(S.UnreadFromRecipient(blocked))
    ensures l.sender in s.nodes && forall n :: n in blocked <==> Owed(s, l, n)
  {
    BlockersAreOwed(s, l);
  }

  lemma SomeOrNone(xs: seq<string>)
    ensures xs == [] <==> forall x :: x !in xs
  {
    assert xs != [] ==> xs[0] in xs;
  }

  // ─── a repeated id ────────────────────────────────────────────

  /** How often an active recipient is named. */
  lemma {:induction false} NamedAsOften(s: Ledger, xs: seq<string>, x: string)
    ensures multiset(S.ActiveAmong(s, xs))[x] == if IsActive(s, x) then multiset(xs)[x] else 0
  {
    if xs != [] {
      var front, last := xs[..|xs| - 1], xs[|xs| - 1];
      NamedAsOften(s, front, x);
      assert xs == front + [last];
    }
  }

  /** The stored message and the letter agree on sender, subject, priority, expiry, answered message
      and thread, and on the digest of the body. */
  ghost predicate Agrees(env: Env, s: Ledger, m: Message, l: S.Letter) {
    && m.sender == l.sender && m.subject == l.subject && m.priority == l.priority && m.expires == l.expires
    && m.replyTo == l.replyTo && m.bodyHash == env.hash(l.body) && m.thread == S.Thread(s.messages, l)
  }

  /** Who the stored message went to, and how many deliveries each has. */
  ghost predicate WentTo(s: Ledger, id: string, to: multiset<string>) {
    S.RecipientsOf(s.deliveries, id) == to
  }

  /** A letter under an id that is taken is answered as resent exactly when it agrees with what is
      stored and is for the same recipients, and otherwise is a conflict; nothing is stored. */
  lemma RepeatedId(env: Env, s: Ledger, l: S.Letter, id: string)
    requires S.WellFormed(s) && S.Gate(s, l).None? && l.messageId == Some(id) && id != "" && Find(s.messages, id).Some?
    requires l.priority == "now" || l.priority == "next" || l.priority == "batch"
    ensures S.Send(env, s, l) ==
              (s, if Agrees(env, s, Find(s.messages, id).value, l) && WentTo(s, id, multiset(S.Valid(s, l)))
                  then S.Resent(id) else S.Conflict(id))
  {
  }

  /** So under a digest that tells them apart, another body never passes for a resend. */
  lemma OtherBodyConflicts(env: Env, s: Ledger, l: S.Letter, id: string)
    requires S.WellFormed(s) && S.Gate(s, l).None? && l.messageId == Some(id) && id != "" && Find(s.messages, id).Some?
    requires l.priority == "now" || l.priority == "next" || l.priority == "batch"
    requires var m := Find(s.messages, id).value; m.bodyHash == env.hash(m.body) && env.hash(m.body) != env.hash(l.body)
    ensures S.Send(env, s, l) == (s, S.Conflict(id))
  {
    RepeatedId(env, s, l, id);
  }

  /** A letter with a new id is stored exactly when its priority is one of the three, the message it
      answers is stored (or is itself), and no active recipient is named twice. */
  lemma NewIdIsStored(env: Env, s: Ledger, l: S.Letter)
    requires S.WellFormed(s) && S.Gate(s, l).None? && Find(s.messages, S.MessageId(l)).None?
    ensures S.Send(env, s, l).1.Stored? <==>
              && (l.priority == "now" || l.priority == "next" || l.priority == "batch")
              && (l.replyTo.Some? ==> l.replyTo.value == S.MessageId(l) || Find(s.messages, l.replyTo.value).Some?)
              && forall x :: IsActive(s, x) ==> multiset(S.Addressed(l))[x] <= 1
  {
    DistinctIs(S.Valid(s, l));
    forall x ensures multiset(S.Valid(s, l))[x] == if IsActive(s, x) then multiset(S.Addressed(l))[x] else 0 {
      NamedAsOften(s, S.Addressed(l), x);
    }
  }

  lemma {:induction false} DistinctIs(xs: seq<string>)
    ensures S.Distinct(xs) <==> forall x :: multiset(xs)[x] <= 1
  {
    if xs != [] {
      var front, last := xs[..|xs| - 1], xs[|xs| - 1];
      DistinctIs(front);
      assert xs == front + [last];
      assert S.Distinct(xs) <==> S.Distinct(front) && last !in front by { DistinctSnoc(front, last); }
      assert last in front <==> multiset(front)[last] > 0;
      forall x ensures multiset(xs)[x] == multiset(front)[x] + if x == last then 1 else 0 {
      }
    }
  }

  lemma DistinctSnoc(front: seq<string>, last: string)
    ensures S.Distinct(front + [last]) <==> S.Distinct(front) && last !in front
  {
    var xs := front + [last];
    assert forall i :: 0 <= i < |front| ==> xs[i] == front[i];
    assert xs[|front|] == last;
    assert S.Distinct(xs) ==> forall i :: 0 <= i < |front| ==> xs[i] != xs[|front|];
  }
}
