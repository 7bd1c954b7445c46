/** `bus_send` as one atomic step: gates, fan-out, then one transaction that stores the
    message and all its deliveries, or nothing. */
module Sending {
  import opened Tables
  import opened Identifiers
  import opened Deliveries
  import T = Tacs

  /** What the caller sends, plus what the engine supplies: a fresh id, and the answers of the
      member (or announcement) query and of the roster query, in the order it lists them. */
  datatype Letter = Letter(
    sender: string,
    recipients: seq<string>,
    subject: string,
    body: string,
    payloadOk: bool,
    priority: string,
    expires: Expiry,
    replyTo: Option<string>,
    messageId: Option<string>,
    threadId: Option<string>,
    tac: Option<string>,
    broadcast: bool,
    minted: string,
    listing: seq<string>,
    roster: seq<string>
  )

  datatype Refusal =
    | BadPayload
    | MalformedExpiry
    | UnregisteredSender
    | RemovedSender
    | BroadcastAndTac
    | TacIdInvalid
    | NoSuchTac
    | TacClosed
    | UnreadInTac
    | NoOtherMembers
    | ProgramRecipient
    | NoValidRecipients
    | UnreadFromRecipient(blocked: seq<string>)

  datatype Reply =
    | Refused(why: Refusal)
    | Stored(id: string, recipients: seq<string>)
    | Resent(id: string)
    | Conflict(id: string)
    | Raised

  /** Python truth of an optional string. */
  predicate Given(o: Option<string>) {
    o.Some? && o.value != ""
  }

  // ─── who receives it ──────────────────────────────────────────

  predicate Active(s: Ledger, n: string) {
    n in s.nodes && n !in s.removed
  }

  predicate IsProgram(s: Ledger, n: string) {
    n in s.nodes && s.nodes[n].isProgram
  }

  predicate FansOut(l: Letter) {
    Given(l.tac) || l.broadcast
  }

  /** The nodes a tac or an announcement is addressed to. */
  function FanOut(s: Ledger, l: Letter): set<string> {
    if Given(l.tac) then set m | m in s.members && m.0 == l.tac.value && m.1 !in s.removed && m.1 != l.sender :: m.1
    else set n | n in s.nodes && Active(s, n) && !IsProgram(s, n) && n != l.sender
  }

  function Everyone(s: Ledger, l: Letter): set<string> {
    set n | n in s.nodes && Active(s, n) && n != l.sender
  }

  ghost predicate Lists(xs: seq<string>, of: set<string>) {
    && (forall x :: x in of <==> x in xs)
    && (forall i, j :: 0 <= i < j < |xs| ==> xs[i] != xs[j])
  }

  /** The minted id is new and the listings are the queries' answers. */
  ghost predicate Supplied(s: Ledger, l: Letter) {
    && l.minted != "" && Find(s.messages, l.minted).None?
    && (FansOut(l) ==> Lists(l.listing, FanOut(s, l)))
    && Lists(l.roster, Everyone(s, l))
  }

  lemma ListsOne(xs: seq<string>, of: set<string>, x: string)
    requires Lists(xs, of)
    ensures xs == [x] <==> of == {x}
  {
    assert |xs| > 1 ==> xs[0] in of && xs[1] in of && xs[0] != xs[1];
    if of == {x} {
      assert x in xs;
    }
    if xs == [x] {
      assert forall y :: y in of <==> y == x;
    }
  }

  function Named(l: Letter): seq<string> {
    if FansOut(l) then l.listing else l.recipients
  }

  /** The list ["all"] stands for everyone, also when it is the answer of the member query. */
  function Addressed(l: Letter): seq<string> {
    if Named(l) == ["all"] then l.roster else Named(l)
  }

  function ActiveAmong(s: Ledger, xs: seq<string>): (r: seq<string>)
    ensures forall x :: x in r <==> x in xs && Active(s, x)
  {
    if xs == [] then []
    else ActiveAmong(s, xs[..|xs| - 1]) + if Active(s, xs[|xs| - 1]) then [xs[|xs| - 1]] else []
  }

  function Valid(s: Ledger, l: Letter): (r: seq<string>)
    ensures forall n :: n in r <==> n in Addressed(l) && Active(s, n)
  {
    ActiveAmong(s, Addressed(l))
  }

  // ─── the gates ────────────────────────────────────────────────

  predicate UnopenedInTac(s: Ledger, node: string, tac: string) {
    exists i :: 0 <= i < |s.deliveries| && s.deliveries[i].recipient == node
                && Open(s.deliveries[i]) && InTac(s.messages, s.deliveries[i].mid, tac)
  }

  /** The conversational axis: no tac column, not an announcement. */
  predicate DirectFrom(ms: seq<Message>, mid: string, sender: string) {
    var m := Find(ms, mid);
    m.Some? && m.value.sender == sender && m.value.tac.None? && !m.value.broadcast
  }

  predicate UnopenedFrom(s: Ledger, node: string, sender: string) {
    exists i :: 0 <= i < |s.deliveries| && s.deliveries[i].recipient == node
                && Open(s.deliveries[i]) && DirectFrom(s.messages, s.deliveries[i].mid, sender)
  }

  function BlockersAmong(s: Ledger, sender: string, xs: seq<string>): (r: seq<string>)
    ensures forall x :: x in r <==> x in xs && UnopenedFrom(s, sender, x)
  {
    if xs == [] then []
    else BlockersAmong(s, sender, xs[..|xs| - 1]) + if UnopenedFrom(s, sender, xs[|xs| - 1]) then [xs[|xs| - 1]] else []
  }

  function Blocked(s: Ledger, l: Letter): (r: seq<string>)
    ensures !Given(l.tac) && !l.broadcast && !IsProgram(s, l.sender) ==>
              forall n :: n in r <==> n in Valid(s, l) && UnopenedFrom(s, l.sender, n)
  {
    if Given(l.tac) || l.broadcast || IsProgram(s, l.sender) then []
    else BlockersAmong(s, l.sender, Valid(s, l))
  }

  /** The first gate that refuses, in the order the code tries them. */
  function Gate(s: Ledger, l: Letter): Option<Refusal> {
    if !l.payloadOk then Some(BadPayload)
    else if l.expires.Malformed? then Some(MalformedExpiry)
    else if l.sender !in s.nodes then Some(UnregisteredSender)
    else if l.sender in s.removed then Some(RemovedSender)
    else if l.broadcast && Given(l.tac) then Some(BroadcastAndTac)
    else if Given(l.tac) && !T.Designates(s, l.tac.value) then Some(TacIdInvalid)
    else if Given(l.tac) && l.tac.value !in s.tacs then Some(NoSuchTac)
    else if Given(l.tac) && s.tacs[l.tac.value].closed.Some? then Some(TacClosed)
    else if Given(l.tac) && UnopenedInTac(s, l.sender, l.tac.value) then Some(UnreadInTac)
    else if Given(l.tac) && l.listing == [] then Some(NoOtherMembers)
    else if exists n :: n in Addressed(l) && Active(s, n) && IsProgram(s, n) then Some(ProgramRecipient)
    else if Valid(s, l) == [] then Some(NoValidRecipients)
    else if Blocked(s, l) != [] then Some(UnreadFromRecipient(Blocked(s, l)))
    else None
  }

  // ─── the transaction ──────────────────────────────────────────

  function MessageId(l: Letter): string {
    if Given(l.messageId) then l.messageId.value else l.minted
  }

  function Thread(ms: seq<Message>, l: Letter): string {
    if Given(l.threadId) then l.threadId.value
    else if Given(l.replyTo) && Find(ms, l.replyTo.value).Some? && Find(ms, l.replyTo.value).value.thread != ""
    then Find(ms, l.replyTo.value).value.thread
    else MessageId(l)
  }

  function Envelope(env: Env, ms: seq<Message>, l: Letter): Message
  {
    Message(MessageId(l), l.sender, l.subject, l.body, env.hash(l.body), l.replyTo, Thread(ms, l), PROTOCOL_VERSION,
            l.expires, l.priority, l.tac, l.broadcast)
  }

  predicate KnownPriority(p: string) {
    p == "now" || p == "next" || p == "batch"
  }

  /** reply_to REFERENCES messages(id); the row being inserted already counts. */
  predicate ReplyExists(ms: seq<Message>, m: Message) {
    m.replyTo.Some? ==> m.replyTo.value == m.id || Find(ms, m.replyTo.value).Some?
  }

  predicate Distinct(xs: seq<string>) {
    forall i, j :: 0 <= i < j < |xs| ==> xs[i] != xs[j]
  }

  function Rows(mid: string, to: seq<string>): (r: seq<Delivery>)
    ensures |r| == |to|
    ensures forall i :: 0 <= i < |to| ==> r[i] == Delivery(mid, to[i], Accepted, 0, None, None)
  {
    seq(|to|, i requires 0 <= i < |to| => Delivery(mid, to[i], Accepted, 0, None, None))
  }

  function RecipientsOf(ds: seq<Delivery>, mid: string): multiset<string> {
    if ds == [] then multiset{}
    else RecipientsOf(ds[..|ds| - 1], mid)
         + if ds[|ds| - 1].mid == mid then multiset{ds[|ds| - 1].recipient} else multiset{}
  }

  /** The seven columns and the recipients a resend is compared on. The tac and the broadcast
      mark are not among them. */
  predicate SameLetter(stored: Message, m: Message) {
    && stored.sender == m.sender && stored.bodyHash == m.bodyHash && stored.subject == m.subject
    && stored.priority == m.priority && stored.replyTo == m.replyTo && stored.thread == m.thread
    && stored.expires == m.expires
  }

  /** The transaction that follows the gates. */
  function Transaction(env: Env, s: Ledger, l: Letter): (Ledger, Reply)
  {
    var m := Envelope(env, s.messages, l);
    var to := Valid(s, l);
    if !KnownPriority(m.priority) then (s, Raised)
    else if Find(s.messages, m.id).Some? then
      if SameLetter(Find(s.messages, m.id).value, m) && RecipientsOf(s.deliveries, m.id) == multiset(to)
      then (s, Resent(m.id)) else (s, Conflict(m.id))
    else if !ReplyExists(s.messages, m) then (s, Raised)
    else if !Distinct(to) then (s, Conflict(m.id))
    else (s.(messages := s.messages + [m], deliveries := s.deliveries + Rows(m.id, to)), Stored(m.id, to))
  }

  function Send(env: Env, s: Ledger, l: Letter): (Ledger, Reply) {
    if Gate(s, l).Some? then (s, Refused(Gate(s, l).value)) else Transaction(env, s, l)
  }

  // ─── what one send keeps ──────────────────────────────────────

  /** Ids are unique, every delivery is of a stored message to a known node, at most one per
      (message, recipient), and every sender is a known node. */
  ghost predicate WellFormed(s: Ledger) {
    && UniqueIds(s.messages)
    && (forall i :: 0 <= i < |s.messages|
                    ==> s.messages[i].sender in s.nodes && s.messages[i].thread != "" && s.messages[i].id != "")
    && (forall i :: 0 <= i < |s.deliveries|
                    ==> s.deliveries[i].recipient in s.nodes && Find(s.messages, s.deliveries[i].mid).Some?)
    && (forall i, j :: 0 <= i < j < |s.deliveries| && s.deliveries[i].mid == s.deliveries[j].mid
                       ==> s.deliveries[i].recipient != s.deliveries[j].recipient)
  }

  /** A program node never owns a delivery. */
  ghost predicate ProgramsReceiveNothing(s: Ledger) {
    forall i :: 0 <= i < |s.deliveries| ==> !IsProgram(s, s.deliveries[i].recipient)
  }

  /** Listening order: whoever spoke in a tac had opened everything said there before. */
  ghost predicate ListenedFirst(s: Ledger) {
    forall i, j, k :: 0 <= i < j < |s.messages| && 0 <= k < |s.deliveries|
                      && s.messages[i].tac.Some? && s.messages[i].tac == s.messages[j].tac
                         && s.messages[i].tac != Some("")
                      && s.deliveries[k].mid == s.messages[i].id && s.deliveries[k].recipient == s.messages[j].sender
                      ==> !Open(s.deliveries[k])
  }

  /** Two nodes never both hold unopened direct mail from each other. */
  ghost predicate NoMutualBlock(s: Ledger) {
    forall a, b :: a != b && UnopenedFrom(s, a, b) ==> !UnopenedFrom(s, b, a)
  }

  /** A letter is stored when nothing refuses it. */
  lemma StoredWhen(env: Env, s: Ledger, l: Letter)
    requires Gate(s, l).None? && KnownPriority(l.priority) && Find(s.messages, MessageId(l)).None?
    requires ReplyExists(s.messages, Envelope(env, s.messages, l)) && Distinct(Valid(s, l))
    ensures Send(env, s, l).1.Stored?
  {
  }

  /** What is known when a letter is stored. */
  lemma StoredFacts(env: Env, s: Ledger, l: Letter)
    requires Send(env, s, l).1.Stored?
    ensures Gate(s, l).None? && Distinct(Valid(s, l)) && Find(s.messages, MessageId(l)).None?
    ensures var m := Envelope(env, s.messages, l);
            && ReplyExists(s.messages, m)
            && Send(env, s, l) == (s.(messages := s.messages + [m],
                deliveries := s.deliveries + Rows(m.id, Valid(s, l))),
                                   Stored(m.id, Valid(s, l)))
    ensures |Valid(s, l)| > 0 && forall n :: n in Valid(s, l) ==> n in s.nodes && !s.nodes[n].isProgram
    ensures !Given(l.tac) && !l.broadcast && !IsProgram(s, l.sender) ==> Blocked(s, l) == []
    ensures Given(l.tac) ==> !UnopenedInTac(s, l.sender, l.tac.value) && l.tac.value in s.tacs
                             && s.tacs[l.tac.value].closed.None?
    ensures l.sender in s.nodes && l.sender !in s.removed
  {
  }

  /** What stays true of the mail tables when a new message and its rows are appended. */
  lemma AppendKeepsTables(ms: seq<Message>, ds: seq<Delivery>, m: Message, to: seq<string>)
    requires UniqueIds(ms) && Find(ms, m.id).None? && Distinct(to)
    requires forall i :: 0 <= i < |ds| ==> Find(ms, ds[i].mid).Some?
    requires forall i, j :: 0 <= i < j < |ds| && ds[i].mid == ds[j].mid ==> ds[i].recipient != ds[j].recipient
    ensures UniqueIds(ms + [m])
    ensures var es := ds + Rows(m.id, to);
            && (forall i :: 0 <= i < |es| ==> Find(ms + [m], es[i].mid).Some?)
            && (forall i, j :: 0 <= i < j < |es| && es[i].mid == es[j].mid ==> es[i].recipient != es[j].recipient)
  {
    var es := ds + Rows(m.id, to);
    forall i | 0 <= i < |es| ensures Find(ms + [m], es[i].mid).Some? {
      FindAppend(ms, m, es[i].mid);
    }
    assert forall i :: 0 <= i < |ds| ==> es[i].mid != m.id;
  }

  lemma SendKeepsWellFormed(env: Env, s: Ledger, l: Letter)
    requires WellFormed(s) && Supplied(s, l)
    ensures WellFormed(Send(env, s, l).0)
  {
    if Send(env, s, l).1.Stored? {
      StoredFacts(env, s, l);
      AppendKeepsTables(s.messages, s.deliveries, Envelope(env, s.messages, l), Valid(s, l));
    }
  }

  lemma SendKeepsProgramsOut(env: Env, s: Ledger, l: Letter)
    requires ProgramsReceiveNothing(s)
    ensures ProgramsReceiveNothing(Send(env, s, l).0)
  {
    if Send(env, s, l).1.Stored? {
      StoredFacts(env, s, l);
      assert forall n :: n in Valid(s, l) ==> !IsProgram(s, n);
    }
  }

  function Append(s: Ledger, m: Message, to: seq<string>): Ledger {
    s.(messages := s.messages + [m], deliveries := s.deliveries + Rows(m.id, to))
  }

  /** A new message keeps listening order if its sender has nothing unopened in its tac. */
  lemma AppendKeepsListening(s: Ledger, m: Message, to: seq<string>)
    requires WellFormed(s) && ListenedFirst(s) && Find(s.messages, m.id).None?
    requires Given(m.tac) ==> !UnopenedInTac(s, m.sender, m.tac.value)
    ensures ListenedFirst(Append(s, m, to))
  {
    var t := Append(s, m, to);
    var n := |s.messages|;
    forall i, j, k | 0 <= i < j < |t.messages| && 0 <= k < |t.deliveries|
                     && t.messages[i].tac.Some? && t.messages[i].tac == t.messages[j].tac
                        && t.messages[i].tac != Some("")
                     && t.deliveries[k].mid == t.messages[i].id && t.deliveries[k].recipient == t.messages[j].sender
      ensures !Open(t.deliveries[k])
    {
      if k < |s.deliveries| && j == n {
        FindIs(s.messages, s.messages[i]);
        assert InTac(s.messages, s.deliveries[k].mid, m.tac.value);
      }
    }
  }

  lemma SendKeepsListening(env: Env, s: Ledger, l: Letter)
    requires WellFormed(s) && Supplied(s, l) && ListenedFirst(s)
    ensures ListenedFirst(Send(env, s, l).0)
  {
    if Send(env, s, l).1.Stored? {
      StoredFacts(env, s, l);
      AppendKeepsListening(s, Envelope(env, s.messages, l), Valid(s, l));
    }
  }

  lemma OldRowAfterAppend(s: Ledger, m: Message, i: nat, from: string)
    requires i < |s.deliveries| && Find(s.messages, s.deliveries[i].mid).Some? && Find(s.messages, m.id).None?
    ensures DirectFrom(s.messages + [m], s.deliveries[i].mid, from)
            <==> DirectFrom(s.messages, s.deliveries[i].mid, from)
  {
    FindAppend(s.messages, m, s.deliveries[i].mid);
  }

  lemma NewRowAfterAppend(ms: seq<Message>, m: Message, to: seq<string>, j: nat, from: string)
    requires j < |to| && DirectFrom(ms + [m], Rows(m.id, to)[j].mid, from)
    ensures from == m.sender && to[j] in to && m.tac.None? && !m.broadcast
  {
    FindAppend(ms, m, m.id);
  }

  /** Appending a message with a new id changes nothing about the mail already there. */
  lemma UnopenedAfterAppend(s: Ledger, m: Message, to: seq<string>, node: string, from: string)
    requires forall i :: 0 <= i < |s.deliveries| ==> Find(s.messages, s.deliveries[i].mid).Some?
    requires Find(s.messages, m.id).None? && UnopenedFrom(Append(s, m, to), node, from)
    ensures UnopenedFrom(s, node, from) || (from == m.sender && node in to && m.tac.None? && !m.broadcast)
  {
    var t := Append(s, m, to);
    var i :| 0 <= i < |t.deliveries| && t.deliveries[i].recipient == node && Open(t.deliveries[i])
             && DirectFrom(t.messages, t.deliveries[i].mid, from);
    if i < |s.deliveries| {
      OldRowAfterAppend(s, m, i, from);
    } else {
      NewRowAfterAppend(s.messages, m, to, i - |s.deliveries|, from);
    }
  }

  lemma ProgramsHoldNothing(s: Ledger, p: string, from: string)
    requires ProgramsReceiveNothing(s) && IsProgram(s, p)
    ensures !UnopenedFrom(s, p, from)
  {
  }

  /** A direct letter that passed the gates meets no unopened mail coming the other way. */
  lemma GateCoversPair(s: Ledger, l: Letter, a: string, b: string)
    requires ProgramsReceiveNothing(s) && Gate(s, l).None?
    ensures !Given(l.tac) && !l.broadcast && b == l.sender && a in Valid(s, l) ==> !UnopenedFrom(s, b, a)
    ensures !Given(l.tac) && !l.broadcast && a == l.sender && b in Valid(s, l) ==> !UnopenedFrom(s, a, b)
  {
    if IsProgram(s, l.sender) {
      ProgramsHoldNothing(s, l.sender, a);
      ProgramsHoldNothing(s, l.sender, b);
    }
  }

  lemma PairStaysUnblocked(s: Ledger, l: Letter, m: Message, a: string, b: string)
    requires forall i :: 0 <= i < |s.deliveries| ==> Find(s.messages, s.deliveries[i].mid).Some?
    requires ProgramsReceiveNothing(s) && NoMutualBlock(s) && Gate(s, l).None? && Find(s.messages, m.id).None?
    requires m.sender == l.sender && m.tac == l.tac && m.broadcast == l.broadcast
    requires a != b && UnopenedFrom(Append(s, m, Valid(s, l)), a, b)
    ensures !UnopenedFrom(Append(s, m, Valid(s, l)), b, a)
  {
    UnopenedAfterAppend(s, m, Valid(s, l), a, b);
    GateCoversPair(s, l, a, b);
    if UnopenedFrom(Append(s, m, Valid(s, l)), b, a) {
      UnopenedAfterAppend(s, m, Valid(s, l), b, a);
    }
  }

  lemma SendKeepsNoMutualBlock(env: Env, s: Ledger, l: Letter)
    requires WellFormed(s) && Supplied(s, l) && ProgramsReceiveNothing(s) && NoMutualBlock(s)
    ensures NoMutualBlock(Send(env, s, l).0)
  {
    if Send(env, s, l).1.Stored? {
      StoredFacts(env, s, l);
      forall a, b | a != b && UnopenedFrom(Send(env, s, l).0, a, b) ensures !UnopenedFrom(Send(env, s, l).0, b, a) {
        PairStaysUnblocked(s, l, Envelope(env, s.messages, l), a, b);
      }
    }
  }

  /** Either the message and one new row per active addressee appear together, or nothing
      changes; and no other table is touched. */
  lemma AllOrNothing(env: Env, s: Ledger, l: Letter)
    ensures var (t, r) := Send(env, s, l);
            && t == s.(messages := t.messages, deliveries := t.deliveries)
            && (!r.Stored? ==> t == s)
            && (r.Stored? ==>
                  && Find(s.messages, r.id).None? && |t.messages| == |s.messages| + 1 && s.messages <= t.messages
                  && t.messages[|s.messages|].id == r.id
                  && Distinct(r.recipients) && (forall n :: n in r.recipients <==> n in Addressed(l) && Active(s, n))
                  && t.deliveries == s.deliveries + Rows(r.id, r.recipients))
  {
    if Send(env, s, l).1.Stored? {
      StoredFacts(env, s, l);
    }
  }

  // ─── a tac reaches its members ────────────────────────────────

  /** The stored recipients are exactly the known nodes the query listed. */
  ghost predicate ReachesExactly(s: Ledger, l: Letter, to: seq<string>) {
    forall n :: n in to <==> n in FanOut(s, l) && n in s.nodes
  }

  /** A stored letter to a tac reaches that tac's active members other than the sender and nobody
      else, exactly when the query did not answer with the single name "all", or a node of that
      name is the only other active node anyway. Otherwise it reaches every active node. */
  lemma TacReachesItsMembers(env: Env, s: Ledger, l: Letter)
    requires Supplied(s, l) && Given(l.tac) && Send(env, s, l).1.Stored?
    ensures ReachesExactly(s, l, Send(env, s, l).1.recipients) <==> FanOut(s, l) != {"all"} || Everyone(s, l) == {"all"}
    ensures FanOut(s, l) == {"all"} ==> forall n :: n in Send(env, s, l).1.recipients <==> n in Everyone(s, l)
  {
    StoredFacts(env, s, l);
    ListsOne(l.listing, FanOut(s, l), "all");
    var to := Valid(s, l);
    if FanOut(s, l) == {"all"} {
      assert forall n :: n in to <==> n in Everyone(s, l);
      assert to[0] in to;
      if ReachesExactly(s, l, to) {
        assert forall n :: n in Everyone(s, l) <==> n == "all" && n in s.nodes;
        assert to[0] == "all";
        assert Everyone(s, l) == {"all"};
      }
    }
  }

  // ─── an announcement reaches the agents ───────────────────────

  /** The gates an announcement meets before its recipients are looked at. */
  predicate MayAnnounce(s: Ledger, l: Letter) {
    l.payloadOk && !l.expires.Malformed? && Active(s, l.sender) && l.broadcast && !Given(l.tac)
  }

  /** A stored announcement reaches every active agent but the sender, and nobody else. */
  lemma BroadcastReachesAgents(env: Env, s: Ledger, l: Letter)
    requires Supplied(s, l) && l.broadcast && Send(env, s, l).1.Stored?
    ensures forall n :: n in Send(env, s, l).1.recipients <==> Active(s, n) && !IsProgram(s, n) && n != l.sender
  {
    StoredFacts(env, s, l);
    ListsOne(l.listing, FanOut(s, l), "all");
    var to := Valid(s, l);
    assert forall n :: n in to ==> !IsProgram(s, n);
    if FanOut(s, l) == {"all"} {
      assert forall n :: n in to <==> n in Everyone(s, l);
      assert forall n :: n in Everyone(s, l) && !IsProgram(s, n) ==> n in FanOut(s, l);
    }
  }

  /** The query never lists a program, and yet an announcement is refused because of one: exactly
      when a node called "all" is the only other active agent and some other active node is a
      program. The single name then stands for everyone, programs included. */
  lemma BroadcastRefusedForPrograms(s: Ledger, l: Letter)
    requires Supplied(s, l) && l.broadcast
    ensures Gate(s, l) == Some(ProgramRecipient) <==>
              MayAnnounce(s, l) && FanOut(s, l) == {"all"} && exists n :: n in Everyone(s, l) && IsProgram(s, n)
  {
    if MayAnnounce(s, l) {
      ListsOne(l.listing, FanOut(s, l), "all");
      assert forall n :: n in l.roster <==> n in Everyone(s, l);
      assert forall n :: n in l.listing ==> n in FanOut(s, l) && !IsProgram(s, n);
      if FanOut(s, l) == {"all"} {
        assert Addressed(l) == l.roster;
      } else {
        assert Addressed(l) == l.listing;
      }
    }
  }
}
