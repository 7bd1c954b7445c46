/** The bell itself: what it says, where it is typed, and one round of the daemon. */
module Doorbell {
  import opened Tables
  import opened Deliveries
  import opened Identifiers
  import opened DoorbellPoll
  import B = BusRuns
  import H = RouteHistory
  import P = PollRuns
  import Q = CodexQueue
  import R = Registration
  import S = Sending

  // ─── who wrote ────────────────────────────────────────────────

  /** Sender and conversation: what unread mail is grouped by. */
  type Key = (string, Option<string>)

  datatype Line = Line(sender: string, scope: Option<string>, count: nat, tacName: Option<string>)

  function KeyOf(m: Message): Key {
    (m.sender, m.tac)
  }

  predicate InKey(ms: seq<Message>, d: Delivery, node: string, key: Key) {
    Counts(ms, d, node) && KeyOf(Find(ms, d.mid).value) == key
  }

  function Count(ms: seq<Message>, ds: seq<Delivery>, node: string, key: Key): nat {
    if ds == [] then 0
    else Count(ms, ds[..|ds| - 1], node, key) + if InKey(ms, ds[|ds| - 1], node, key) then 1 else 0
  }

  /** `order` lists the groups once each; which comes first is the query's ORDER BY. */
  ghost predicate Recency(s: Ledger, node: string, order: seq<Key>) {
    && (forall key :: key in order <==> exists i :: 0 <= i < |s.deliveries|
                                                    && InKey(s.messages, s.deliveries[i], node, key))
    && (forall i, j :: 0 <= i < j < |order| ==> order[i] != order[j])
  }

  function TacName(s: Ledger, scope: Option<string>): Option<string> {
    if scope.Some? && scope.value in s.tacs then Some(s.tacs[scope.value].name) else scope
  }

  /** bus_unread_senders with include_tac, one line per group. */
  function UnreadSenders(s: Ledger, node: string, order: seq<Key>): (lines: seq<Line>)
    ensures |lines| == |order|
    ensures forall i :: 0 <= i < |order| ==>
              lines[i] == Line(order[i].0, order[i].1, Count(s.messages, s.deliveries, node, order[i]),
                  TacName(s, order[i].1))
  {
    if order == [] then []
    else
      var key := order[|order| - 1];
      UnreadSenders(s, node, order[..|order| - 1])
      + [Line(key.0, key.1, Count(s.messages, s.deliveries, node, key), TacName(s, key.1))]
  }

  function Total(ms: seq<Message>, ds: seq<Delivery>, node: string, order: seq<Key>): nat {
    if order == [] then 0 else Total(ms, ds, node, order[..|order| - 1]) + Count(ms, ds, node, order[|order| - 1])
  }

  lemma {:induction false} TotalStep(ms: seq<Message>, ds: seq<Delivery>, node: string, order: seq<Key>)
    requires ds != [] && forall i, j :: 0 <= i < j < |order| ==> order[i] != order[j]
    ensures var d := ds[|ds| - 1];
            Total(ms, ds, node, order) == Total(ms, ds[..|ds| - 1], node, order)
              + if Counts(ms, d, node) && KeyOf(Find(ms, d.mid).value) in order then 1 else 0
  {
    if order != [] {
      var front, key := order[..|order| - 1], order[|order| - 1];
      TotalStep(ms, ds, node, front);
      assert order == front + [key] && key !in front;
    }
  }

  lemma {:induction false} TotalIs(ms: seq<Message>, ds: seq<Delivery>, node: string, order: seq<Key>)
    requires forall i, j :: 0 <= i < j < |order| ==> order[i] != order[j]
    requires forall i :: 0 <= i < |ds| && Counts(ms, ds[i], node) ==> KeyOf(Find(ms, ds[i].mid).value) in order
    ensures Total(ms, ds, node, order) == |GroupOf(ms, ds, node).mids|
  {
    if ds == [] {
      TotalOfNone(ms, node, order);
    } else {
      TotalIs(ms, ds[..|ds| - 1], node, order);
      TotalStep(ms, ds, node, order);
    }
  }

  lemma {:induction false} TotalOfNone(ms: seq<Message>, node: string, order: seq<Key>)
    ensures Total(ms, [], node, order) == 0
  {
    if order != [] { TotalOfNone(ms, node, order[..|order| - 1]); }
  }

  /** The lines split the very mail the poller counted: their counts add up to its unread number,
      no line is empty, and there are lines exactly when there is something unread. */
  lemma LinesSplitTheInbox(s: Ledger, node: string, order: seq<Key>)
    requires Recency(s, node, order)
    ensures Total(s.messages, s.deliveries, node, order) == CandidateFor(s, node).unread
    ensures forall i :: 0 <= i < |order| ==> UnreadSenders(s, node, order)[i].count > 0
    ensures order != [] <==> CandidateFor(s, node).high > 0
  {
    var ms, ds := s.messages, s.deliveries;
    forall i | 0 <= i < |ds| && Counts(ms, ds[i], node) ensures KeyOf(Find(ms, ds[i].mid).value) in order {
      assert InKey(ms, ds[i], node, KeyOf(Find(ms, ds[i].mid).value));
    }
    TotalIs(ms, ds, node, order);
    forall i | 0 <= i < |order| ensures Count(ms, ds, node, order[i]) > 0 {
      assert order[i] in order;
      var j :| 0 <= j < |ds| && InKey(ms, ds[j], node, order[i]);
      CountSome(ms, ds, node, order[i], j);
    }
    GroupFacts(ms, ds, node);
    if order != [] {
      assert order[0] in order;
      var j :| 0 <= j < |ds| && InKey(ms, ds[j], node, order[0]);
      assert Counts(ms, ds[j], node);
    }
  }

  lemma {:induction false} CountSome(ms: seq<Message>, ds: seq<Delivery>, node: string, key: Key, j: nat)
    requires j < |ds| && InKey(ms, ds[j], node, key)
    ensures Count(ms, ds, node, key) > 0
  {
    if j < |ds| - 1 { CountSome(ms, ds[..|ds| - 1], node, key, j); }
  }

  // ─── what the bell says ───────────────────────────────────────

  /** One phrase of the notification; the language catalogue turns it into text. */
  datatype Part = Part(who: string, unread: nat, tac: Option<string>)

  predicate First(lines: seq<Line>, i: nat)
    requires i < |lines|
  {
    forall j :: 0 <= j < i ==> lines[j].scope != lines[i].scope
  }

  function PartOf(l: Line): Part {
    Part(l.sender, l.count, l.tacName)
  }

  /** The most recent line of each conversation, in order. */
  function Parts(lines: seq<Line>): seq<Part> {
    if lines == [] then []
    else Parts(lines[..|lines| - 1]) + if First(lines, |lines| - 1) then [PartOf(lines[|lines| - 1])] else []
  }

  function Scopes(lines: seq<Line>): set<Option<string>> {
    set l | l in lines :: l.scope
  }

  lemma FirstIsNew(front: seq<Line>, l: Line)
    ensures First(front + [l], |front|) <==> l.scope !in Scopes(front)
    ensures forall i: nat :: i < |front| ==> (First(front, i) <==> First(front + [l], i))
  {
    var lines := front + [l];
    assert forall j :: 0 <= j < |front| ==> lines[j] == front[j];
    if l.scope in Scopes(front) {
      var x :| x in front && x.scope == l.scope;
      var j: nat :| j < |front| && front[j] == x;
      assert lines[j].scope == l.scope;
    } else {
      assert forall j :: 0 <= j < |front| ==> front[j] in front;
    }
  }

  lemma {:induction false} PartsAreFirsts(lines: seq<Line>, p: Part)
    ensures p in Parts(lines) <==> exists i: nat :: i < |lines| && First(lines, i) && PartOf(lines[i]) == p
  {
    if lines != [] {
      var front, l := lines[..|lines| - 1], lines[|lines| - 1];
      PartsAreFirsts(front, p);
      assert lines == front + [l];
      FirstIsNew(front, l);
    }
  }

  lemma {:induction false} PartsPerScope(lines: seq<Line>)
    ensures |Parts(lines)| == |Scopes(lines)|
  {
    if lines != [] {
      var front, l := lines[..|lines| - 1], lines[|lines| - 1];
      PartsPerScope(front);
      assert lines == front + [l];
      FirstIsNew(front, l);
      assert Scopes(lines) == Scopes(front) + {l.scope};
    }
  }

  /** Exactly one phrase per conversation with unread mail, and it is the newest line's. */
  lemma OnePartPerConversation(lines: seq<Line>)
    ensures |Parts(lines)| == |Scopes(lines)|
    ensures forall p :: p in Parts(lines) <==> exists i: nat :: i < |lines| && First(lines, i) && PartOf(lines[i]) == p
  {
    PartsPerScope(lines);
    forall p ensures p in Parts(lines) <==> exists i: nat :: i < |lines| && First(lines, i) && PartOf(lines[i]) == p {
      PartsAreFirsts(lines, p);
    }
  }

  /** The row is unread, this node's, and of a message of this sender in this conversation. */
  predicate Counted(ms: seq<Message>, d: Delivery, node: string, sender: string, scope: Option<string>) {
    && d.recipient == node && (d.state.Accepted? || d.state.Claimed? || d.state.Injected?)
    && Find(ms, d.mid).Some? && Find(ms, d.mid).value.sender == sender && Find(ms, d.mid).value.tac == scope
  }

  /** The rows a line counts. */
  function CountedRows(ms: seq<Message>, ds: seq<Delivery>, node: string, sender: string,
        scope: Option<string>): set<nat>
  {
    set i: nat | i < |ds| && Counted(ms, ds[i], node, sender, scope)
  }

  lemma CountedIsInKey(ms: seq<Message>, d: Delivery, node: string, sender: string, scope: Option<string>)
    ensures Counted(ms, d, node, sender, scope) <==> InKey(ms, d, node, (sender, scope))
  {
  }

  lemma {:induction false} CountIs(ms: seq<Message>, ds: seq<Delivery>, node: string, sender: string,
        scope: Option<string>)
    ensures Count(ms, ds, node, (sender, scope)) == |CountedRows(ms, ds, node, sender, scope)|
  {
    if ds != [] {
      var n := |ds| - 1;
      CountIs(ms, ds[..n], node, sender, scope);
      OneMoreCounted(ms, ds, node, sender, scope);
      CountedIsInKey(ms, ds[n], node, sender, scope);
    }
  }

  lemma OneMoreCounted(ms: seq<Message>, ds: seq<Delivery>, node: string, sender: string, scope: Option<string>)
    requires ds != []
    ensures var n := |ds| - 1;
            |CountedRows(ms, ds, node, sender, scope)| ==
              |CountedRows(ms, ds[..n], node, sender, scope)|
              + if Counted(ms, ds[n], node, sender, scope) then 1 else 0
  {
    var n := |ds| - 1;
    var hit: set<nat> := if Counted(ms, ds[n], node, sender, scope) then {n} else {};
    var before := CountedRows(ms, ds[..n], node, sender, scope);
    assert n !in before;
    assert CountedRows(ms, ds, node, sender, scope) == before + hit;
  }

  /** The notification has a phrase for the newest line of each conversation and no other: who wrote
      last there, how many of that sender's deliveries there are unread, and the name the tac has now
      or else its id. */
  lemma PhrasesSay(s: Ledger, node: string, order: seq<Key>, p: Part)
    ensures p in Parts(UnreadSenders(s, node, order)) <==>
              exists i :: 0 <= i < |order| && (forall j :: 0 <= j < i ==> order[j].1 != order[i].1)
                          && Says(s, node, order[i], p)
  {
    var lines := UnreadSenders(s, node, order);
    PartsAreFirsts(lines, p);
    forall i | 0 <= i < |order|
      ensures First(lines, i) <==> forall j :: 0 <= j < i ==> order[j].1 != order[i].1
      ensures PartOf(lines[i]) == p <==> Says(s, node, order[i], p)
    {
      assert forall j :: 0 <= j <= i ==> lines[j].scope == order[j].1;
      CountIs(s.messages, s.deliveries, node, order[i].0, order[i].1);
    }
  }

  predicate Says(s: Ledger, node: string, key: Key, p: Part) {
    && p.who == key.0 && p.unread == |CountedRows(s.messages, s.deliveries, node, key.0, key.1)|
    && (if key.1.Some? && key.1.value in s.tacs then p.tac == Some(s.tacs[key.1.value].name) else p.tac == key.1)
  }

  // ─── where it is typed ────────────────────────────────────────

  /** One terminal command. */
  datatype Ran = Broke | Exited(ok: bool, gone: bool)

  /** What the AppleScript came to: nothing usable, or the number it returned. */
  datatype Script = Unusable | Returned(n: int)

  /** No usable native binary, or a journal that fails before a receipt is committed; otherwise
      the receipts, what a command would come to, and whether its result could be written down. */
  datatype Queue = NoQueue | Journal(rows: map<Q.Key, Q.Receipt>, ran: Q.Outcome, written: bool)

  /** Everything a delivery finds outside this process; the two reads may see different moments. */
  datatype World = World(
    senders: Option<Ledger>,
    order: seq<Key>,
    routes: Option<Ledger>,
    script: Script,
    text: Ran,
    enter: Ran,
    queue: Queue,
    catalogue: seq<Part> -> string
  )

  datatype Command = Command(adapter: string, target: string, id: string, parts: seq<Part>, enter: bool)

  datatype Delivered = Delivered(outcome: string, command: Option<Command>)

  function ItermOutcome(a: Script): string {
    if a.Unusable? then "UNKNOWN"
    else if a.n == 1 then "SUCCESS"
    else if a.n == -2 then "TEXT_ONLY"
    else if a.n == 0 then "GONE"
    else "FAILED"
  }

  /** Socket and pane, both nonempty, separated by the only tab. */
  predicate IsTmuxTarget(t: string) {
    exists i :: 0 < i < |t| - 1 && t[i] == '\t' && forall j :: 0 <= j < |t| && j != i ==> t[j] != '\t'
  }

  /** So it is split("\t") into two parts that both say something. */
  lemma TmuxTargetExactly(t: string)
    ensures IsTmuxTarget(t) <==>
              exists socket, pane :: socket != "" && pane != "" && Joined(socket, pane, t)
  {
    if IsTmuxTarget(t) {
      var i :| 0 < i < |t| - 1 && t[i] == '\t' && forall j :: 0 <= j < |t| && j != i ==> t[j] != '\t';
      assert Joined(t[..i], t[i + 1..], t);
    }
    if socket, pane :| socket != "" && pane != "" && Joined(socket, pane, t) {
      var i := |socket|;
      assert t[i] == '\t';
      forall j | 0 <= j < |t| && j != i ensures t[j] != '\t' {
        assert t[j] == if j < i then socket[j] else pane[j - i - 1];
      }
    }
  }

  /** Socket and pane have no tab in them, and one between them. */
  predicate Joined(socket: string, pane: string, t: string) {
    t == socket + "\t" + pane && '\t' !in socket && '\t' !in pane
  }

  function TmuxOutcome(text: Ran, enter: bool, key: Ran): string {
    if text.Broke? then "UNKNOWN"
    else if text.ok then
      if enter && (key.Broke? || !key.ok) then "TEXT_ONLY" else "SUCCESS"
    else if text.gone then "GONE"
    else "UNKNOWN"
  }

  /** deliver_notification's call of the queue adapter. */
  function QueueCall(q: Queue, r: Route, id: string, message: string): Q.Called
    requires q.Journal?
  {
    Q.Call(q.rows, r.target, id, message, if r.autoEnter then R.On else R.Off, q.ran)
  }

  /** The state it answers with; a refused argument or an error is not knowing. */
  function QueueOutcome(c: Q.Called, written: bool): string {
    if c.answer.Disabled? then "DISABLED"
    else if c.answer.Said? && c.answer.receipt.Queued? && (c.starts ==> written) then "QUEUED"
    else "UNKNOWN"
  }

  function SendToQueue(w: World, r: Route, id: string, parts: seq<Part>): Delivered {
    if w.queue.NoQueue? || id == "" then Delivered("UNKNOWN", None)
    else
      var c := QueueCall(w.queue, r, id, w.catalogue(parts));
      Delivered(QueueOutcome(c, w.queue.written),
                if c.starts then Some(Command(r.adapter, r.target, id, parts, r.autoEnter)) else None)
  }

  predicate HasActive(s: Ledger, node: string) {
    node in s.routes && s.routes[node].active
  }

  function Send(w: World, r: Route, id: string, parts: seq<Part>): Delivered {
    var command := Some(Command(r.adapter, r.target, id, parts, r.autoEnter));
    if r.adapter == "codex-queue" then SendToQueue(w, r, id, parts)
    else if r.adapter == "iterm2" then Delivered(ItermOutcome(w.script), command)
    else if r.adapter == "tmux" then
      if IsTmuxTarget(r.target) then Delivered(TmuxOutcome(w.text, r.autoEnter, w.enter), command)
      else Delivered("UNKNOWN", None)
    else Delivered("UNSUPPORTED", None)
  }

  /** deliver_doorbell */
  function Deliver(w: World, node: string, id: string): Delivered {
    if w.senders.None? then Delivered("UNKNOWN", None)
    else
      var lines := UnreadSenders(w.senders.value, node, w.order);
      if lines == [] then Delivered("STALE", None)
      else if lines[0].sender == "" then Delivered("UNKNOWN", None)
      else if w.routes.None? then Delivered("UNKNOWN", None)
      else if !HasActive(w.routes.value, node) then Delivered("NOT_MINE", None)
      else Send(w, w.routes.value.routes[node], id, Parts(lines))
  }

  /** The loop over the lines, which keeps the scopes it has seen. */
  method Compose(lines: seq<Line>) returns (parts: seq<Part>)
    ensures parts == Parts(lines)
  {
    var seen: set<Option<string>>, i := {}, 0;
    parts := [];
    while i < |lines|
      invariant i <= |lines| && parts == Parts(lines[..i])
      invariant forall x :: x in seen <==> exists j :: 0 <= j < i && lines[j].scope == x
    {
      assert lines[..i + 1][..i] == lines[..i];
      assert First(lines[..i + 1], i) <==> lines[i].scope !in seen;
      if lines[i].scope !in seen {
        parts := parts + [PartOf(lines[i])];
      }
      seen := seen + {lines[i].scope};
      i := i + 1;
    }
    assert lines[..i] == lines;
  }

  /** deliver_doorbell, branch by branch. */
  method DeliverDoorbell(w: World, node: string, id: string) returns (d: Delivered)
    ensures d == Deliver(w, node, id)
  {
    if w.senders.None? {
      return Delivered("UNKNOWN", None);
    }
    var lines := UnreadSenders(w.senders.value, node, w.order);
    if lines == [] {
      return Delivered("STALE", None);
    }
    if lines[0].sender == "" {
      return Delivered("UNKNOWN", None);
    }
    var parts := Compose(lines);
    if w.routes.None? {
      return Delivered("UNKNOWN", None);
    }
    if !HasActive(w.routes.value, node) {
      return Delivered("NOT_MINE", None);
    }
    return Send(w, w.routes.value.routes[node], id, parts);
  }

  /** The queue adapter starts its command: it is reached, Enter is allowed, nothing is wrong with
      the arguments, and there is no receipt for this notification yet. */
  predicate QueueStarts(w: World, r: Route, id: string, parts: seq<Part>) {
    && w.queue.Journal? && r.autoEnter && Q.Acceptable(r.target, id, w.catalogue(parts))
       && (r.target, id) !in w.queue.rows
  }

  /** The notification was submitted by an earlier call, whose receipt says so. */
  predicate QueuedBefore(w: World, r: Route, id: string) {
    r.adapter == "codex-queue" && w.queue.Journal? && (r.target, id) in w.queue.rows
    && w.queue.rows[(r.target, id)].Queued?
  }

  /** The adapter takes it: a terminal command is attempted, or the queue command started. */
  predicate Takes(w: World, r: Route, id: string, parts: seq<Part>) {
    || r.adapter == "iterm2" || (r.adapter == "tmux" && IsTmuxTarget(r.target))
    || (r.adapter == "codex-queue" && QueueStarts(w, r, id, parts))
  }

  /** Whatever the adapters answer, an outcome that suppresses comes with a command on this route,
      now or by an earlier call to the queue. */
  lemma SendFacts(w: World, r: Route, id: string, parts: seq<Part>)
    ensures var d := Send(w, r, id, parts);
            && (d.command.Some? <==> Takes(w, r, id, parts))
            && (d.command.Some? ==> d.command.value == Command(r.adapter, r.target, id, parts, r.autoEnter))
            && (Suppresses(d.outcome) ==> d.command.Some? || QueuedBefore(w, r, id))
            && (d.outcome == "QUEUED" ==> r.autoEnter)
            && (d.outcome == "DISABLED" ==> d.command.None? && !r.autoEnter)
  {
  }

  /** What a delivery would say to this node. */
  function PartsFor(w: World, node: string): seq<Part>
    requires w.senders.Some?
  {
    Parts(UnreadSenders(w.senders.value, node, w.order))
  }

  /** The lookup found unread mail, and the node has an active route. */
  predicate HasSomethingToSay(w: World, node: string) {
    && w.senders.Some? && CandidateFor(w.senders.value, node).high > 0 && w.order != [] && w.order[0].0 != ""
    && w.routes.Some? && HasActive(w.routes.value, node)
  }

  /** A delivery acts exactly when the lookup found unread mail and the adapter of the node's own
      active route takes it; then it acts on that route and no other. Whatever suppresses later
      rings is an outcome of having acted, now or in an earlier call whose receipt says QUEUED. */
  lemma ActsOnlyWhenItShould(w: World, node: string, id: string)
    requires w.senders.Some? ==> Recency(w.senders.value, node, w.order)
    ensures var d := Deliver(w, node, id);
            && (d.command.Some? <==>
                  HasSomethingToSay(w, node) && Takes(w, w.routes.value.routes[node], id, PartsFor(w, node)))
            && (d.command.Some? ==>
                  var r := w.routes.value.routes[node];
                  d.command.value == Command(r.adapter, r.target, id, PartsFor(w, node), r.autoEnter))
            && (Suppresses(d.outcome) ==>
                  d.command.Some? || (HasSomethingToSay(w, node) && QueuedBefore(w, w.routes.value.routes[node], id)))
            && (d.outcome == "QUEUED" ==> w.routes.value.routes[node].autoEnter)
  {
    if w.senders.Some? {
      assert w.order != [] <==> CandidateFor(w.senders.value, node).high > 0 by {
        LinesSplitTheInbox(w.senders.value, node, w.order);
      }
      if w.routes.Some? && HasActive(w.routes.value, node) {
        SendFacts(w, w.routes.value.routes[node], id, PartsFor(w, node));
      }
    }
  }

  // ─── a bell has rung when something was typed ─────────────────

  /** What the script returns: how many sessions have the id, and -2 where Enter failed after the
      text was typed into the only one. */
  function RunScript(sessions: nat, enter: bool, enterFails: bool): int {
    if sessions == 1 && enter && enterFails then -2 else sessions
  }

  /** The adapters that type into a terminal. */
  predicate IsTerminal(r: Route) {
    r.adapter == "iterm2" || (r.adapter == "tmux" && IsTmuxTarget(r.target))
  }

  /** The terminal reported that the text is there. */
  predicate Typed(w: World, r: Route) {
    if r.adapter == "iterm2" then w.script == Returned(1) || w.script == Returned(-2)
    else w.text.Exited? && w.text.ok
  }

  /** And Enter too, if it was asked for. */
  predicate Entered(w: World, r: Route) {
    if r.adapter == "iterm2" then w.script == Returned(1)
    else w.text.Exited? && w.text.ok && (r.autoEnter ==> w.enter.Exited? && w.enter.ok)
  }

  /** Nothing is there to type into. */
  predicate NoPlace(w: World, r: Route) {
    if r.adapter == "iterm2" then w.script == Returned(0)
    else w.text.Exited? && !w.text.ok && w.text.gone
  }

  /** A delivery to a terminal suppresses later rings exactly when text was typed; it is a success
      exactly when Enter went through as well. */
  lemma OutcomeIsWhatHappened(w: World, r: Route, id: string, parts: seq<Part>)
    requires IsTerminal(r)
    ensures var d := Send(w, r, id, parts);
            && (Suppresses(d.outcome) <==> Typed(w, r))
            && (d.outcome == "SUCCESS" <==> Entered(w, r))
            && (d.outcome == "TEXT_ONLY" <==> Typed(w, r) && !Entered(w, r))
            && (d.outcome == "GONE" <==> NoPlace(w, r))
            && (d.outcome == "FAILED" <==> r.adapter == "iterm2" && w.script.Returned? && w.script.n !in {-2, 0, 1})
            && (d.outcome == "UNKNOWN" <==>
                  if r.adapter == "iterm2" then w.script.Unusable?
                  else w.text.Broke? || (!w.text.ok && !w.text.gone))
  {
    var d := Send(w, r, id, parts);
    assert |"SUCCESS"| == |"UNKNOWN"| && "SUCCESS"[0] != "UNKNOWN"[0];
    assert |"GONE"| == 4 && |"FAILED"| == 6 && |"TEXT_ONLY"| == 9;
    if r.adapter != "iterm2" {
      assert r.adapter == "tmux";
    }
  }

  /** In iTerm that is exactly when one session has the id, whatever became of Enter. */
  lemma OneSessionIsTyped(w: World, r: Route, sessions: nat, enterFails: bool)
    requires r.adapter == "iterm2" && w.script == Returned(RunScript(sessions, r.autoEnter, enterFails))
    ensures Typed(w, r) <==> sessions == 1
    ensures Entered(w, r) <==> sessions == 1 && !(r.autoEnter && enterFails)
    ensures NoPlace(w, r) <==> sessions == 0
  {
  }

  /** The notification id names this route's receipt. */
  predicate SaysQueued(rows: map<Q.Key, Q.Receipt>, target: string, id: string) {
    (target, id) in rows && rows[(target, id)].Queued?
  }

  /** The queue adapter's outcome suppresses exactly when Enter is allowed, the arguments are sound,
      and either a receipt already says QUEUED or there is none, the command answers with its success
      line for a canonical id, and that could be written down. */
  lemma QueueOutcomeIs(w: World, r: Route, id: string, parts: seq<Part>)
    requires r.adapter == "codex-queue"
    ensures var d, text := Send(w, r, id, parts), w.catalogue(parts);
            && (Suppresses(d.outcome) <==> d.outcome == "QUEUED")
            && (d.outcome == "QUEUED" <==>
                  && w.queue.Journal? && r.autoEnter
                  && IsCanonicalUuid(r.target) && id != "" && text != "" && '\0' !in text
                  && (SaysQueued(w.queue.rows, r.target, id)
                      || ((r.target, id) !in w.queue.rows && w.queue.written
                          && Q.Parse(r.target, w.queue.ran).Queued?)))
            && (d.outcome == "DISABLED" <==>
                  && w.queue.Journal? && !r.autoEnter && IsCanonicalUuid(r.target) && id != "" && text != ""
                     && '\0' !in text)
            && (d.outcome != "QUEUED" && d.outcome != "DISABLED" ==> d.outcome == "UNKNOWN")
  {
    assert |"QUEUED"| == 6 && |"DISABLED"| == 8 && |"UNKNOWN"| == 7 && |"SUCCESS"| == 7;
    assert "UNKNOWN"[0] != "SUCCESS"[0];
    assert |"SUCCESS_LEGACY"| == 14 && |"SHADOW_ONLY"| == 11 && |"TEXT_ONLY"| == 9;
  }

  /** What is answered without an adapter. */
  lemma NoAdapterNeeded(w: World, node: string, id: string)
    requires w.senders.Some? ==> Recency(w.senders.value, node, w.order)
    ensures var d := Deliver(w, node, id);
            && (d.outcome == "STALE" <==> w.senders.Some? && CandidateFor(w.senders.value, node).high == 0)
            && (d.outcome == "NOT_MINE" <==>
                  && w.senders.Some? && CandidateFor(w.senders.value, node).high > 0 && w.order[0].0 != ""
                     && w.routes.Some?
                  && !(node in w.routes.value.routes && w.routes.value.routes[node].active))
            && (d.outcome == "UNSUPPORTED" <==>
                  && HasSomethingToSay(w, node)
                  && w.routes.value.routes[node].adapter !in {"codex-queue", "iterm2", "tmux"})
  {
    if w.senders.Some? { LinesSplitTheInbox(w.senders.value, node, w.order); }
    assert |"STALE"| == 5 && |"NOT_MINE"| == 8 && |"UNSUPPORTED"| == 11 && |"UNKNOWN"| == 7;
    if HasSomethingToSay(w, node) {
      OnlyTheseOutcomes(w, w.routes.value.routes[node], id, PartsFor(w, node));
    }
  }

  lemma OnlyTheseOutcomes(w: World, r: Route, id: string, parts: seq<Part>)
    ensures Send(w, r, id, parts).outcome == "UNSUPPORTED" <==> r.adapter !in {"codex-queue", "iterm2", "tmux"}
    ensures Send(w, r, id, parts).outcome != "STALE" && Send(w, r, id, parts).outcome != "NOT_MINE"
  {
    assert |"UNSUPPORTED"| == 11 && |"UNKNOWN"| == 7 && |"SUCCESS"| == 7 && |"GONE"| == 4 && |"FAILED"| == 6;
    assert |"TEXT_ONLY"| == 9 && |"QUEUED"| == 6 && |"DISABLED"| == 8 && |"STALE"| == 5 && |"NOT_MINE"| == 8;
    assert "DISABLED"[0] != "NOT_MINE"[0];
  }

  /** A recipient that listens, and whose last uncertain ring is thirty seconds back. */
  predicate MayRing(s: P.Sys, recipient: string, c: Clock) {
    && recipient !in s.ledger.removed
    && (recipient in s.ledger.nodes && s.ledger.nodes[recipient].snoozeUntil.Some?
        ==> s.ledger.nodes[recipient].snoozeUntil.value <= c.wall)
    && ((recipient, s.mode) in s.unknown ==> c.monotonic - s.unknown[(recipient, s.mode)] >= 30)
  }

  lemma ChosenWhenNew(s: P.Sys, x: Candidate, c: Clock, order: seq<string>)
    requires x == CandidateFor(s.ledger, x.recipient) && MayRing(s, x.recipient, c)
    requires S.Lists(order, Awake(s.ledger, c.wall))
    ensures x in Chosen(s.ledger, s.rings, s.unknown, s.mode, c, order)
            <==> x.high > LastRung(s.rings, x.recipient, s.mode)
  {
    ChosenExactly(s.ledger, s.rings, s.unknown, s.mode, c, order);
  }

  /** What a ring leaves of a recipient's place in the next round. */
  lemma RungAgain(env: Env, s: P.Sys, outcome: string, took: nat, c: Clock, order: seq<string>)
    requires s.pending != [] && (s.mode != "SHADOW" || s.pending[0].broadcast) && P.Waits(s, s.pending[0])
    requires s.pending[0] == CandidateFor(s.ledger, s.pending[0].recipient)
    requires S.Lists(order, Awake(s.ledger, c.wall))
    requires MayRing(P.Next(env, s, P.Ring(outcome, took)), s.pending[0].recipient, c)
    ensures var t := P.Next(env, s, P.Ring(outcome, took));
            s.pending[0] in Chosen(t.ledger, t.rings, t.unknown, t.mode, c, order) <==> !Suppresses(outcome)
  {
    var t := P.Next(env, s, P.Ring(outcome, took));
    RingMovesMark(env, s, outcome, took);
    ChosenWhenNew(t, s.pending[0], c, order);
  }

  /** After a delivery to a terminal the same mail is a candidate of the next round exactly when
      nothing was typed, as soon as the recipient may be rung. */
  lemma RungExactlyWhenTyped(env: Env, s: P.Sys, w: World, id: string, took: nat, c: Clock, order: seq<string>)
    requires P.PollInv(s) && s.pending != [] && (s.mode != "SHADOW" || s.pending[0].broadcast)
    requires s.pending[0] == CandidateFor(s.ledger, s.pending[0].recipient)
    requires HasSomethingToSay(w, s.pending[0].recipient) && IsTerminal(w.routes.value.routes[s.pending[0].recipient])
    requires S.Lists(order, Awake(s.ledger, c.wall))
    requires MayRing(P.Next(env, s, P.Ring(Deliver(w, s.pending[0].recipient, id).outcome, took)),
             s.pending[0].recipient, c)
    ensures var x := s.pending[0];
            var t := P.Next(env, s, P.Ring(Deliver(w, x.recipient, id).outcome, took));
            x in Chosen(t.ledger, t.rings, t.unknown, t.mode, c, order)
            <==> !Typed(w, w.routes.value.routes[x.recipient])
  {
    var x := s.pending[0];
    var outcome := Deliver(w, x.recipient, id).outcome;
    assert P.Waits(s, x);
    RungAgain(env, s, outcome, took, c, order);
    TypedIsSuppressed(w, x.recipient, id);
  }

  lemma TypedIsSuppressed(w: World, node: string, id: string)
    requires HasSomethingToSay(w, node) && IsTerminal(w.routes.value.routes[node])
    ensures Suppresses(Deliver(w, node, id).outcome) <==> Typed(w, w.routes.value.routes[node])
  {
    DeliversThere(w, node, id);
    OutcomeIsWhatHappened(w, w.routes.value.routes[node], id, PartsFor(w, node));
  }

  lemma DeliversThere(w: World, node: string, id: string)
    requires HasSomethingToSay(w, node)
    ensures Deliver(w, node, id) == Send(w, w.routes.value.routes[node], id, PartsFor(w, node))
  {
  }

  lemma RingMovesMark(env: Env, s: P.Sys, outcome: string, took: nat)
    requires s.pending != [] && (s.mode != "SHADOW" || s.pending[0].broadcast) && P.Waits(s, s.pending[0])
    ensures var x, t := s.pending[0], P.Next(env, s, P.Ring(outcome, took));
            && t.ledger == s.ledger && t.mode == s.mode
            && LastRung(t.rings, x.recipient, t.mode) ==
                 if Suppresses(outcome) then x.high else LastRung(s.rings, x.recipient, s.mode)
  {
    var x := s.pending[0];
    LastRungAfter(s.rings, Ring(x.recipient, x.high, s.mode, outcome), x.recipient, s.mode);
  }

  /** If a delivery reads its route in any reachable state and presses Enter or submits a turn,
      the owner said "on" for exactly that place and nothing has withdrawn it since; and nobody
      else has an active route to the pane it types into. */
  lemma EnterNeedsConsent(env: Env, states: seq<Ledger>, ops: seq<B.Op>, m: nat, w: World, node: string, id: string)
    requires B.IsRun(env, states, ops) && m < |states| && w.routes == Some(states[m])
    requires Deliver(w, node, id).command.Some?
    ensures var c, r := Deliver(w, node, id).command.value, states[m].routes[node];
            && (c.enter ==> H.StandingConsent(states, ops, node, R.PlaceOf(r), m))
            && (forall n :: n != node && HasActive(states[m], n) ==>
                  states[m].routes[n].host != r.host || states[m].routes[n].target != c.target)
  {
    var d := Deliver(w, node, id);
    if d.command.value.enter {
      H.ConsentStands(env, states, ops, node, m);
    }
    H.RoutesAreExclusive(env, states, ops, m);
  }

  // ─── no content travels ───────────────────────────────────────

  /** Equal in everything but what was written. */
  predicate SameEnvelope(a: Message, b: Message) {
    a.id == b.id && a.sender == b.sender && a.tac == b.tac
  }

  ghost predicate SameButContent(s: Ledger, t: Ledger) {
    && s.deliveries == t.deliveries && s.tacs == t.tacs
    && |s.messages| == |t.messages| && forall i :: 0 <= i < |s.messages| ==> SameEnvelope(s.messages[i], t.messages[i])
  }

  lemma {:induction false} SameFind(ms: seq<Message>, ns: seq<Message>, id: string)
    requires |ms| == |ns| && forall i :: 0 <= i < |ms| ==> SameEnvelope(ms[i], ns[i])
    ensures Find(ms, id).Some? <==> Find(ns, id).Some?
    ensures Find(ms, id).Some? ==> SameEnvelope(Find(ms, id).value, Find(ns, id).value)
  {
    if ms != [] && ms[|ms| - 1].id != id { SameFind(ms[..|ms| - 1], ns[..|ns| - 1], id); }
  }

  lemma {:induction false} SameCount(ms: seq<Message>, ns: seq<Message>, ds: seq<Delivery>, node: string, key: Key)
    requires |ms| == |ns| && forall i :: 0 <= i < |ms| ==> SameEnvelope(ms[i], ns[i])
    ensures Count(ms, ds, node, key) == Count(ns, ds, node, key)
  {
    if ds != [] {
      SameCount(ms, ns, ds[..|ds| - 1], node, key);
      SameFind(ms, ns, ds[|ds| - 1].mid);
    }
  }

  /** Subject, body, priority and everything else written in a message have no influence on a
      delivery: whatever the messages say, the same command goes out with the same text. */
  lemma NoBodyTravels(w: World, t: Ledger, node: string, id: string)
    requires w.senders.Some? && SameButContent(w.senders.value, t)
    ensures Deliver(w, node, id) == Deliver(w.(senders := Some(t)), node, id)
  {
    var s := w.senders.value;
    var xs, ys := UnreadSenders(s, node, w.order), UnreadSenders(t, node, w.order);
    forall i | 0 <= i < |w.order| ensures xs[i] == ys[i] {
      SameCount(s.messages, t.messages, s.deliveries, node, w.order[i]);
    }
    assert xs == ys;
  }

  // ─── one round of the daemon ──────────────────────────────────

  /** One candidate's turn: what it meets, how long it takes, and whether the delivery raises or
      the recording of its outcome does. */
  datatype Turn = Turn(world: World, took: nat, raises: bool, loses: bool)

  /** The turn ends the round. */
  predicate Stops(x: Candidate, mode: string, turn: Turn) {
    (P.Injects(mode, x) && turn.raises) || turn.loses
  }

  function StopOp(x: Candidate, mode: string, turn: Turn): P.PollOp {
    if P.Injects(mode, x) && turn.raises then P.Abort(true, turn.took)
    else
      var op := RingOp(x, mode, turn);
      P.Lose(op.outcome, op.took)
  }

  function RingOp(x: Candidate, mode: string, turn: Turn): (op: P.PollOp)
    ensures op.Ring?
  {
    if P.Injects(mode, x)
    then P.Ring(Deliver(turn.world, x.recipient, NotificationId(x.recipient, x.high)).outcome, turn.took)
    else P.Ring("SHADOW_ONLY", 0)
  }

  /** The steps of the first k turns. */
  function TurnOps(xs: seq<Candidate>, mode: string, turns: seq<Turn>, k: nat): seq<P.PollOp>
    requires k <= |xs| && k <= |turns|
  {
    if k == 0 then [] else TurnOps(xs, mode, turns, k - 1) + [RingOp(xs[k - 1], mode, turns[k - 1])]
  }

  /** The steps take s to t. */
  ghost predicate Reaches(env: Env, s: P.Sys, ops: seq<P.PollOp>, t: P.Sys) {
    if ops == [] then s == t
    else
      var front, op := ops[..|ops| - 1], ops[|ops| - 1];
      exists u :: Reaches(env, s, front, u) && Goes(env, u, op, t)
  }

  ghost predicate Goes(env: Env, u: P.Sys, op: P.PollOp, t: P.Sys) {
    P.Enabled(u, op) && t == P.Next(env, u, op)
  }

  lemma ReachesOneMore(env: Env, s: P.Sys, ops: seq<P.PollOp>, u: P.Sys, op: P.PollOp)
    requires Reaches(env, s, ops, u) && P.Enabled(u, op)
    ensures Reaches(env, s, ops + [op], P.Next(env, u, op))
  {
    assert (ops + [op])[..|ops|] == ops;
    assert Goes(env, u, op, P.Next(env, u, op));
  }

  lemma {:induction false} ReachesGood(env: Env, s: P.Sys, ops: seq<P.PollOp>, t: P.Sys)
    requires Reaches(env, s, ops, t) && P.PollInv(s)
    ensures P.PollInv(t)
  {
    if ops != [] {
      var front, op := ops[..|ops| - 1], ops[|ops| - 1];
      var u :| Reaches(env, s, front, u) && Goes(env, u, op, t);
      ReachesGood(env, s, front, u);
      P.NextKeeps(env, u, op);
    }
  }

  ghost predicate Holds(p: Poller, s: P.Sys)
    reads p
  {
    p.observations == s.observations && p.rings == s.rings && p.rounds == s.rounds && p.unknown == s.unknown
  }

  /** The body of the loop: deliver, unless this is a quiet observation, and record. */
  method Take(p: Poller, mode: string, x: Candidate, turn: Turn, clock: int) returns (raised: bool, after: int)
    modifies p
    ensures raised <==> Stops(x, mode, turn)
    ensures p.observations == old(p.observations) && p.rounds == old(p.rounds)
    ensures raised ==>
              && p.rings == old(p.rings)
              && p.unknown == if StopOp(x, mode, turn).Abort? then old(p.unknown)
                              else P.Remember(old(p.unknown), (x.recipient, mode), StopOp(x, mode, turn).outcome,
                                  clock + StopOp(x, mode, turn).took)
    ensures !raised ==>
              var op := RingOp(x, mode, turn);
              && after == clock + op.took
              && p.rings == Record(old(p.rings), Ring(x.recipient, x.high, mode, op.outcome))
              && p.unknown == P.Remember(old(p.unknown), (x.recipient, mode), op.outcome, after)
  {
    after := clock;
    var wrote;
    if !P.Injects(mode, x) {
      wrote, raised := p.RecordRing(x.recipient, x.high, mode, "SHADOW_ONLY", clock, turn.loses);
      return raised, clock;
    }
    if turn.raises {
      return true, clock;
    }
    var d := DeliverDoorbell(turn.world, x.recipient, NotificationId(x.recipient, x.high));
    after := clock + turn.took;
    wrote, raised := p.RecordRing(x.recipient, x.high, mode, d.outcome, after, turn.loses);
  }

  /** What the step that ends a round does to the daemon's own state. */
  lemma StopDoes(env: Env, t: P.Sys, turn: Turn)
    requires t.pending != [] && Stops(t.pending[0], t.mode, turn)
    ensures var x, op := t.pending[0], StopOp(t.pending[0], t.mode, turn); var u := P.Next(env, t, op);
            && P.Enabled(t, op)
            && u.rings == t.rings && u.observations == t.observations && u.rounds == t.rounds && u.pending == []
            && u.unknown == if op.Abort? then t.unknown
                            else P.Remember(t.unknown, (x.recipient, t.mode), op.outcome, t.clock + op.took)
  {
  }

  /** What a ring step does to the daemon's own state. */
  lemma RingDoes(env: Env, t: P.Sys, turn: Turn)
    requires t.pending != []
    ensures var x, op := t.pending[0], RingOp(t.pending[0], t.mode, turn); var u := P.Next(env, t, op);
            && P.Enabled(t, op)
            && u.rings == Record(t.rings, Ring(x.recipient, x.high, t.mode, op.outcome))
            && u.unknown == P.Remember(t.unknown, (x.recipient, t.mode), op.outcome, t.clock + op.took)
            && u.clock == t.clock + op.took && u.pending == t.pending[1..]
            && u.ledger == t.ledger && u.mode == t.mode && u.observations == t.observations && u.rounds == t.rounds
  {
  }

  predicate Through(xs: seq<Candidate>, mode: string, turns: seq<Turn>, k: nat) {
    k <= |xs| && k <= |turns| && forall i :: 0 <= i < k ==> !Stops(xs[i], mode, turns[i])
  }

  /** Where the run stands after k turns of a round that began in s with these candidates. */
  ghost predicate Along(env: Env, s: P.Sys, t: P.Sys, xs: seq<Candidate>, turns: seq<Turn>, k: nat) {
    && Through(xs, s.mode, turns, k)
    && Reaches(env, s, TurnOps(xs, s.mode, turns, k), t)
    && t.pending == xs[k..] && t.ledger == s.ledger && t.mode == s.mode
  }

  lemma AlongOneMore(env: Env, s: P.Sys, t: P.Sys, xs: seq<Candidate>, turns: seq<Turn>, k: nat) returns (u: P.Sys)
    requires Along(env, s, t, xs, turns, k) && k < |xs| && k < |turns| && !Stops(xs[k], s.mode, turns[k])
    ensures Along(env, s, u, xs, turns, k + 1)
    ensures var x, op := xs[k], RingOp(xs[k], s.mode, turns[k]);
            && u.rings == Record(t.rings, Ring(x.recipient, x.high, s.mode, op.outcome))
            && u.unknown == P.Remember(t.unknown, (x.recipient, s.mode), op.outcome, t.clock + op.took)
            && u.clock == t.clock + op.took && u.observations == t.observations && u.rounds == t.rounds
  {
    var op := RingOp(xs[k], s.mode, turns[k]);
    RingDoes(env, t, turns[k]);
    u := P.Next(env, t, op);
    assert Reaches(env, s, TurnOps(xs, s.mode, turns, k + 1), u) by {
      ReachesOneMore(env, s, TurnOps(xs, s.mode, turns, k), t, op);
    }
    assert Through(xs, s.mode, turns, k + 1);
  }

  /** The loop over the candidates. */
  method Turns(p: Poller, ghost env: Env, ghost s: P.Sys, xs: seq<Candidate>, mode: string, start: int,
        turns: seq<Turn>)
    returns (raised: bool, ghost t: P.Sys, done: nat)
    requires |turns| == |xs| && Holds(p, s) && s.pending == xs && s.mode == mode && s.clock == start
    modifies p
    ensures done <= |xs| && (raised <==> done < |xs|) && Along(env, s, t, xs, turns, done)
    ensures !raised ==> Holds(p, t)
    ensures raised ==> Stops(xs[done], mode, turns[done]) && P.Enabled(t, StopOp(xs[done], mode, turns[done]))
                       && Holds(p, P.Next(env, t, StopOp(xs[done], mode, turns[done])))
  {
    var clock := start;
    done, t, raised := 0, s, false;
    while done < |xs|
      invariant done <= |xs| && Along(env, s, t, xs, turns, done) && Holds(p, t) && t.clock == clock && !raised
    {
      var after;
      raised, after := Take(p, mode, xs[done], turns[done], clock);
      if raised {
        StopDoes(env, t, turns[done]);
        return;
      }
      clock := after;
      t := AlongOneMore(env, s, t, xs, turns, done);
      done := done + 1;
    }
  }

  /** One pass of the loop in main: decide, then deliver and record each candidate in turn, until
      one raises. It is the run of the notifier's steps that its turns spell out, so everything
      proved of those runs holds of the daemon's own state. */
  method Round(p: Poller, ghost env: Env, ghost s: P.Sys, ledger: Ledger, mode: string, c: Clock, order: seq<string>,
        turns: seq<Turn>)
    returns (raised: bool, ghost t: P.Sys, done: nat)
    requires S.Lists(order, Awake(ledger, c.wall))
    requires |turns| == |Chosen(ledger, p.rings, p.unknown, mode, c, order)|
    requires Holds(p, s) && s.ledger == ledger && s.mode == mode && s.clock == c.monotonic && s.pending == []
    modifies p
    ensures var xs := Chosen(ledger, old(p.rings), old(p.unknown), mode, c, order);
            && P.Enabled(s, P.Decide(c.wall, order))
            && Along(env, P.Next(env, s, P.Decide(c.wall, order)), t, xs, turns, done)
            && (raised <==> done < |xs|)
            && (!raised ==> Holds(p, t))
            && (raised ==> Stops(xs[done], mode, turns[done]) && P.Enabled(t, StopOp(xs[done], mode, turns[done]))
                           && Holds(p, P.Next(env, t, StopOp(xs[done], mode, turns[done]))))
  {
    var xs := p.Decide(ledger, mode, c, order);
    ScannedMatch(s, c.wall, p.observations);
    raised, t, done := Turns(p, env, P.Next(env, s, P.Decide(c.wall, order)), xs, mode, c.monotonic, turns);
  }

  lemma ScannedMatch(s: P.Sys, wall: int, observations: map<(string, string), nat>)
    requires forall k :: k in observations <==> k in s.observations || Scanned(s.ledger, wall, k.0, k.1)
    requires forall k :: k in observations
                         ==> observations[k] == if k in s.observations then s.observations[k] else |s.rounds|
    ensures observations == P.Observed(s, wall)
  {
    forall k: (string, string) ensures k in observations <==> k in P.Observed(s, wall) {
      AwakeIs(s.ledger, wall, k.0);
      GroupFacts(s.ledger.messages, s.ledger.deliveries, k.0);
    }
  }

  /** The notifier's invariant is kept by every round, whether it ends or one of its turns stops it. */
  lemma RoundKeeps(env: Env, s: P.Sys, wall: int, order: seq<string>, xs: seq<Candidate>, turns: seq<Turn>, t: P.Sys,
        k: nat)
    requires P.PollInv(s) && P.Enabled(s, P.Decide(wall, order))
    requires Along(env, P.Next(env, s, P.Decide(wall, order)), t, xs, turns, k)
    ensures P.PollInv(t)
    ensures k < |xs| && k < |turns| ==>
              var op := StopOp(xs[k], t.mode, turns[k]); P.Enabled(t, op) && P.PollInv(P.Next(env, t, op))
  {
    var u := P.Next(env, s, P.Decide(wall, order));
    P.NextKeeps(env, s, P.Decide(wall, order));
    ReachesGood(env, u, TurnOps(xs, u.mode, turns, k), t);
    if k < |xs| && k < |turns| {
      P.NextKeeps(env, t, StopOp(xs[k], t.mode, turns[k]));
    }
  }
}
