/** The poller's own ledger: what it observed, what rang, and what that suppresses. */
module DoorbellPoll {
  import opened Tables
  import opened Deliveries
  import S = Sending

  // ─── scanning the message ledger ──────────────────────────────

  /** One recipient's unread mail: message ids in row order, the highest row id, any announcement. */
  datatype Group = Group(mids: seq<string>, high: nat, broadcast: bool)

  predicate Counts(ms: seq<Message>, d: Delivery, recipient: string) {
    d.recipient == recipient && Unread(d) && Find(ms, d.mid).Some?
  }

  /** The rows of one recipient, gathered one at a time in id order. */
  function GroupOf(ms: seq<Message>, ds: seq<Delivery>, recipient: string): (g: Group)
    ensures g.high <= |ds|
  {
    if ds == [] then Group([], 0, false)
    else
      var d := ds[|ds| - 1];
      var g := GroupOf(ms, ds[..|ds| - 1], recipient);
      if Counts(ms, d, recipient)
      then Group(g.mids + [d.mid], |ds|, g.broadcast || Find(ms, d.mid).value.broadcast)
      else g
  }

  /** The group is what its name says: the highest id is of an unread row of that recipient, and
      every unread row is at or below it and listed. */
  lemma {:induction false} GroupFacts(ms: seq<Message>, ds: seq<Delivery>, recipient: string)
    ensures var g := GroupOf(ms, ds, recipient);
            && (g.mids == [] <==> g.high == 0)
            && (g.high > 0 ==> Counts(ms, ds[g.high - 1], recipient))
            && (forall i :: 0 <= i < |ds| && Counts(ms, ds[i], recipient) ==> i + 1 <= g.high && ds[i].mid in g.mids)
  {
    if ds != [] {
      GroupFacts(ms, ds[..|ds| - 1], recipient);
    }
  }

  predicate Snoozed(s: Ledger, node: string, now: int) {
    node in s.nodes && s.nodes[node].snoozeUntil.Some? && s.nodes[node].snoozeUntil.value > now
  }

  predicate Listens(s: Ledger, node: string, now: int) {
    node !in s.removed && !Snoozed(s, node, now)
  }

  /** The recipients a scan reports. */
  function Awake(s: Ledger, now: int): set<string> {
    set d | d in s.deliveries && GroupOf(s.messages, s.deliveries, d.recipient).high > 0
    && Listens(s, d.recipient, now) :: d.recipient
  }

  lemma AwakeIs(s: Ledger, now: int, r: string)
    ensures r in Awake(s, now) <==> Listens(s, r, now) && GroupOf(s.messages, s.deliveries, r).high > 0
  {
    var g := GroupOf(s.messages, s.deliveries, r);
    GroupFacts(s.messages, s.deliveries, r);
    if g.high > 0 && Listens(s, r, now) {
      assert s.deliveries[g.high - 1].recipient == r;
    }
  }

  /** A scan reports exactly the recipients that are not removed, whose snooze (if any) is over, and
      that have a delivery not yet read. */
  lemma AwakeExactly(s: Ledger, now: int, r: string)
    requires S.WellFormed(s)
    ensures r in Awake(s, now) <==>
              && r !in s.removed
              && (r in s.nodes && s.nodes[r].snoozeUntil.Some? ==> s.nodes[r].snoozeUntil.value <= now)
              && exists i :: 0 <= i < |s.deliveries| && s.deliveries[i].recipient == r
                             && (s.deliveries[i].state.Accepted? || s.deliveries[i].state.Claimed?
                                 || s.deliveries[i].state.Injected?)
  {
    AwakeIs(s, now, r);
    GroupFacts(s.messages, s.deliveries, r);
    forall i | 0 <= i < |s.deliveries|
      ensures Counts(s.messages, s.deliveries[i], r)
              <==> s.deliveries[i].recipient == r && (s.deliveries[i].state.Accepted? || s.deliveries[i].state.Claimed?
                                                      || s.deliveries[i].state.Injected?)
    {
    }
  }

  /** One row into its group: setdefault, append, max, max. */
  function AddRow(ms: seq<Message>, g: Group, d: Delivery, did: nat): Group
    requires Find(ms, d.mid).Some?
  {
    Group(g.mids + [d.mid], if did > g.high then did else g.high, g.broadcast || Find(ms, d.mid).value.broadcast)
  }

  lemma GroupStep(ms: seq<Message>, ds: seq<Delivery>, i: nat, r: string)
    requires i < |ds|
    ensures GroupOf(ms, ds[..i + 1], r) ==
              if Counts(ms, ds[i], r) then AddRow(ms, GroupOf(ms, ds[..i], r), ds[i], i + 1)
              else GroupOf(ms, ds[..i], r)
  {
    assert ds[..i + 1][..i] == ds[..i];
  }

  ghost predicate GroupedFor(s: Ledger, ds: seq<Delivery>, grouped: map<string, Group>, r: string) {
    && (r in grouped <==> r !in s.removed && GroupOf(s.messages, ds, r).high > 0)
    && (r in grouped ==> grouped[r] == GroupOf(s.messages, ds, r))
  }

  /** The dictionary holds exactly the groups of these rows. */
  ghost predicate Grouped(s: Ledger, ds: seq<Delivery>, grouped: map<string, Group>) {
    forall r :: GroupedFor(s, ds, grouped, r)
  }

  function Insert(s: Ledger, grouped: map<string, Group>, d: Delivery, did: nat): map<string, Group> {
    if Unread(d) && Find(s.messages, d.mid).Some? && d.recipient !in s.removed
    then
      var g := if d.recipient in grouped then grouped[d.recipient] else Group([], 0, false);
      grouped[d.recipient := AddRow(s.messages, g, d, did)]
    else grouped
  }

  lemma GroupedStepFor(s: Ledger, i: nat, grouped: map<string, Group>, r: string)
    requires i < |s.deliveries| && GroupedFor(s, s.deliveries[..i], grouped, r)
    ensures GroupedFor(s, s.deliveries[..i + 1], Insert(s, grouped, s.deliveries[i], i + 1), r)
  {
    GroupStep(s.messages, s.deliveries, i, r);
    EmptyGroup(s.messages, s.deliveries[..i], r);
  }

  lemma GroupedStep(s: Ledger, i: nat, grouped: map<string, Group>)
    requires i < |s.deliveries| && Grouped(s, s.deliveries[..i], grouped)
    ensures Grouped(s, s.deliveries[..i + 1], Insert(s, grouped, s.deliveries[i], i + 1))
  {
    var ds, after := s.deliveries[..i + 1], Insert(s, grouped, s.deliveries[i], i + 1);
    forall r ensures GroupedFor(s, ds, after, r) {
      assert GroupedFor(s, s.deliveries[..i], grouped, r);
      GroupedStepFor(s, i, grouped, r);
    }
  }

  lemma {:induction false} EmptyGroup(ms: seq<Message>, ds: seq<Delivery>, r: string)
    ensures GroupOf(ms, ds, r).high == 0 ==> GroupOf(ms, ds, r) == Group([], 0, false)
  {
    if ds != [] { EmptyGroup(ms, ds[..|ds| - 1], r); }
  }

  /** scan_unread: one pass over the joined rows, filling a dictionary, then the snooze filter. */
  method ScanUnread(s: Ledger, now: int) returns (groups: map<string, Group>)
    ensures forall r :: r in groups <==> r in Awake(s, now)
    ensures forall r :: r in groups ==> groups[r] == GroupOf(s.messages, s.deliveries, r)
  {
    var grouped: map<string, Group> := map[];
    var i := 0;
    while i < |s.deliveries|
      invariant i <= |s.deliveries| && Grouped(s, s.deliveries[..i], grouped)
    {
      var d := s.deliveries[i];
      GroupedStep(s, i, grouped);
      ghost var was := grouped;
      if Unread(d) && Find(s.messages, d.mid).Some? && d.recipient !in s.removed {
        var g := if d.recipient in grouped then grouped[d.recipient] else Group([], 0, false);
        grouped := grouped[d.recipient := AddRow(s.messages, g, d, i + 1)];
      }
      assert grouped == Insert(s, was, d, i + 1);
      i := i + 1;
    }
    assert s.deliveries[..i] == s.deliveries;
    groups := map r | r in grouped && !Snoozed(s, r, now) :: grouped[r];
    forall r ensures r in groups <==> r in Awake(s, now) {
      assert GroupedFor(s, s.deliveries, grouped, r);
      AwakeIs(s, now, r);
    }
    assert forall r :: r in groups ==> GroupedFor(s, s.deliveries, grouped, r);
  }

  // ─── rings and the watermark ──────────────────────────────────

  datatype Ring = Ring(recipient: string, high: nat, mode: string, outcome: string)

  const UNKNOWN_RETRY_SECONDS := 30

  /** Only these count as having rung. */
  predicate Suppresses(outcome: string) {
    outcome == "SUCCESS" || outcome == "SUCCESS_LEGACY" || outcome == "SHADOW_ONLY" || outcome == "TEXT_ONLY"
    || outcome == "QUEUED"
  }

  predicate Rang(r: Ring, recipient: string, mode: string) {
    r.recipient == recipient && r.mode == mode && Suppresses(r.outcome)
  }

  /** coalesce(max(high_id), 0) over the suppressing rings of one recipient in one mode. */
  function LastRung(rings: seq<Ring>, recipient: string, mode: string): (h: nat)
    ensures forall r :: r in rings && Rang(r, recipient, mode) ==> r.high <= h
    ensures h > 0 ==> exists r :: r in rings && Rang(r, recipient, mode) && r.high == h
  {
    if rings == [] then 0
    else
      var h := LastRung(rings[..|rings| - 1], recipient, mode);
      var r := rings[|rings| - 1];
      if Rang(r, recipient, mode) && r.high > h then r.high else h
  }

  lemma LastRungAfter(rings: seq<Ring>, r: Ring, recipient: string, mode: string)
    ensures LastRung(rings + [r], recipient, mode) ==
              if Rang(r, recipient, mode) && r.high > LastRung(rings, recipient, mode) then r.high
              else LastRung(rings, recipient, mode)
  {
    assert (rings + [r])[..|rings|] == rings;
  }

  /** record_ring: an identical row is not written again. */
  function Record(rings: seq<Ring>, r: Ring): seq<Ring> {
    if r in rings then rings else rings + [r]
  }

  function RecordAll(log: seq<Ring>): seq<Ring> {
    if log == [] then [] else Record(RecordAll(log[..|log| - 1]), log[|log| - 1])
  }

  lemma {:induction false} RecordedSame(log: seq<Ring>, r: Ring)
    ensures r in RecordAll(log) <==> r in log
  {
    if log != [] {
      RecordedSame(log[..|log| - 1], r);
      assert log == log[..|log| - 1] + [log[|log| - 1]];
    }
  }

  ghost predicate NoneTwice(rings: seq<Ring>) {
    forall i, j :: 0 <= i < j < |rings| ==> rings[i] != rings[j]
  }

  /** No line is ever kept twice. */
  lemma {:induction false} RecordedOnce(log: seq<Ring>)
    ensures NoneTwice(RecordAll(log))
  {
    if log != [] {
      RecordedOnce(log[..|log| - 1]);
      RecordKeepsOnce(RecordAll(log[..|log| - 1]), log[|log| - 1]);
    }
  }

  lemma RecordKeepsOnce(rings: seq<Ring>, r: Ring)
    requires NoneTwice(rings)
    ensures NoneTwice(Record(rings, r))
  {
    assert forall i :: 0 <= i < |rings| ==> rings[i] in rings;
  }

  /** Skipping duplicates never changes a watermark: whatever happened, in whatever order, the
      short log and the log that kept every line agree for every recipient and mode. */
  lemma {:induction false} DuplicatesDoNotMatter(log: seq<Ring>, recipient: string, mode: string)
    ensures LastRung(RecordAll(log), recipient, mode) == LastRung(log, recipient, mode)
  {
    if log != [] {
      var front, last := log[..|log| - 1], log[|log| - 1];
      DuplicatesDoNotMatter(front, recipient, mode);
      RecordedSame(front, last);
      LastRungAfter(RecordAll(front), last, recipient, mode);
    }
  }

  /** A ring moves a watermark only when it suppresses, is for that recipient and mode, and is higher. */
  lemma OnlySuccessMoves(rings: seq<Ring>, r: Ring, recipient: string, mode: string)
    ensures LastRung(Record(rings, r), recipient, mode) != LastRung(rings, recipient, mode)
            <==> r.outcome in {"SUCCESS", "SUCCESS_LEGACY", "SHADOW_ONLY", "TEXT_ONLY", "QUEUED"}
                 && r.recipient == recipient && r.mode == mode && r.high > LastRung(rings, recipient, mode)
  {
    LastRungAfter(rings, r, recipient, mode);
  }

  // ─── the poller ───────────────────────────────────────────────

  datatype Candidate = Candidate(recipient: string, unread: nat, high: nat, broadcast: bool)

  datatype Status = OK | ERROR

  datatype Clock = Clock(wall: int, monotonic: int)

  predicate Cooling(unknown: map<(string, string), int>, recipient: string, mode: string, now: int) {
    (recipient, mode) in unknown && now - unknown[(recipient, mode)] < UNKNOWN_RETRY_SECONDS
  }

  /** Who rings this round. */
  predicate ShouldRing(s: Ledger, rings: seq<Ring>, unknown: map<(string, string), int>, mode: string, c: Clock,
        recipient: string)
  {
    && Listens(s, recipient, c.wall)
    && GroupOf(s.messages, s.deliveries, recipient).high > LastRung(rings, recipient, mode)
    && !Cooling(unknown, recipient, mode, c.monotonic)
  }

  function CandidateFor(s: Ledger, recipient: string): Candidate {
    var g := GroupOf(s.messages, s.deliveries, recipient);
    Candidate(recipient, |g.mids|, g.high, g.broadcast)
  }

  /** What a round observes: every unread message of everyone it scanned. */
  predicate Scanned(s: Ledger, wall: int, recipient: string, mid: string) {
    Listens(s, recipient, wall) && mid in GroupOf(s.messages, s.deliveries, recipient).mids
  }

  /** The candidates among these recipients, in their order. */
  function Chosen(s: Ledger, rings: seq<Ring>, unknown: map<(string, string), int>, mode: string, c: Clock,
        order: seq<string>): seq<Candidate>
  {
    if order == [] then []
    else
      var r := order[|order| - 1];
      Chosen(s, rings, unknown, mode, c, order[..|order| - 1])
      + if GroupOf(s.messages, s.deliveries, r).high > LastRung(rings, r, mode)
      && !Cooling(unknown, r, mode, c.monotonic)
        then [CandidateFor(s, r)] else []
  }

  lemma {:induction false} ChosenAmong(s: Ledger, rings: seq<Ring>, unknown: map<(string, string), int>, mode: string,
        c: Clock, order: seq<string>)
    requires forall i, j :: 0 <= i < j < |order| ==> order[i] != order[j]
    ensures var out := Chosen(s, rings, unknown, mode, c, order);
            && (forall x :: x in out <==>
                  x == CandidateFor(s, x.recipient) && x.recipient in order
                  && x.high > LastRung(rings, x.recipient, mode) && !Cooling(unknown, x.recipient, mode, c.monotonic))
            && (forall i, j :: 0 <= i < j < |out| ==> out[i].recipient != out[j].recipient)
  {
    if order != [] {
      var front, r := order[..|order| - 1], order[|order| - 1];
      ChosenAmong(s, rings, unknown, mode, c, front);
      assert order == front + [r];
      assert r !in front;
      var was := Chosen(s, rings, unknown, mode, c, front);
      assert forall i :: 0 <= i < |was| ==> was[i] in was;
    }
  }

  lemma ScannedAre(s: Ledger, wall: int, order: seq<string>)
    requires S.Lists(order, Awake(s, wall))
    ensures forall r, m :: Scanned(s, wall, r, m) <==> r in order && m in GroupOf(s.messages, s.deliveries, r).mids
  {
    forall r, m ensures Scanned(s, wall, r, m) <==> r in order && m in GroupOf(s.messages, s.deliveries, r).mids {
      AwakeIs(s, wall, r);
      GroupFacts(s.messages, s.deliveries, r);
    }
  }

  /** A recipient is a candidate, once and with its current high mark, exactly when it is neither
      removed nor snoozed nor cooling and has unread mail above the watermark. */
  lemma ChosenExactly(s: Ledger, rings: seq<Ring>, unknown: map<(string, string), int>, mode: string, c: Clock,
        order: seq<string>)
    requires S.Lists(order, Awake(s, c.wall))
    ensures var out := Chosen(s, rings, unknown, mode, c, order);
            && (forall x :: x in out <==> x == CandidateFor(s, x.recipient)
                                          && ShouldRing(s, rings, unknown, mode, c, x.recipient))
            && (forall i, j :: 0 <= i < j < |out| ==> out[i].recipient != out[j].recipient)
  {
    ChosenAmong(s, rings, unknown, mode, c, order);
    forall r ensures r in order <==> Listens(s, r, c.wall) && GroupOf(s.messages, s.deliveries, r).high > 0 {
      AwakeIs(s, c.wall, r);
    }
  }

  /** The rows of one recipient that are not yet read, by their place in the table. */
  function UnreadRows(ds: seq<Delivery>, recipient: string): set<nat> {
    set i: nat | i < |ds| && ds[i].recipient == recipient
                 && (ds[i].state.Accepted? || ds[i].state.Claimed? || ds[i].state.Injected?)
  }

  ghost predicate Announced(ms: seq<Message>, mid: string) {
    exists j :: 0 <= j < |ms| && ms[j].id == mid && ms[j].broadcast
  }

  ghost predicate AnyAnnounced(ms: seq<Message>, ds: seq<Delivery>, recipient: string) {
    exists i :: i in UnreadRows(ds, recipient) && Announced(ms, ds[i].mid)
  }

  lemma AnnouncedIs(ms: seq<Message>, mid: string)
    requires UniqueIds(ms) && Find(ms, mid).Some?
    ensures Announced(ms, mid) <==> Find(ms, mid).value.broadcast
  {
    var j :| 0 <= j < |ms| && ms[j] == Find(ms, mid).value;
  }

  lemma OneMoreRow(ms: seq<Message>, ds: seq<Delivery>, recipient: string)
    requires ds != []
    ensures var n := |ds| - 1; var hit := n in UnreadRows(ds, recipient);
            && |UnreadRows(ds, recipient)| == |UnreadRows(ds[..n], recipient)| + (if hit then 1 else 0)
            && (AnyAnnounced(ms, ds, recipient)
                <==> AnyAnnounced(ms, ds[..n], recipient) || (hit && Announced(ms, ds[n].mid)))
  {
    var n := |ds| - 1;
    var front := UnreadRows(ds[..n], recipient);
    assert n !in front;
    assert UnreadRows(ds, recipient) == front + if n in UnreadRows(ds, recipient) then {n} else {};
    assert forall i :: i in front ==> ds[..n][i] == ds[i];
  }

  lemma {:induction false} GroupIs(ms: seq<Message>, ds: seq<Delivery>, recipient: string)
    requires UniqueIds(ms) && forall i :: 0 <= i < |ds| ==> Find(ms, ds[i].mid).Some?
    ensures var g := GroupOf(ms, ds, recipient);
            |g.mids| == |UnreadRows(ds, recipient)| && (g.broadcast <==> AnyAnnounced(ms, ds, recipient))
  {
    if ds != [] {
      var n := |ds| - 1;
      GroupIs(ms, ds[..n], recipient);
      OneMoreRow(ms, ds, recipient);
      AnnouncedIs(ms, ds[n].mid);
    }
  }

  lemma CountsIs(ms: seq<Message>, ds: seq<Delivery>, recipient: string, i: nat)
    requires i < |ds| && Find(ms, ds[i].mid).Some?
    ensures i in UnreadRows(ds, recipient) <==> Counts(ms, ds[i], recipient)
  {
  }

  lemma HighIs(ms: seq<Message>, ds: seq<Delivery>, recipient: string)
    requires forall i :: 0 <= i < |ds| ==> Find(ms, ds[i].mid).Some?
    ensures var high, rows := GroupOf(ms, ds, recipient).high, UnreadRows(ds, recipient);
            (high > 0 ==> high - 1 in rows) && forall i :: i in rows ==> i < high
  {
    GroupFacts(ms, ds, recipient);
    forall i: nat | i < |ds| ensures i in UnreadRows(ds, recipient) <==> Counts(ms, ds[i], recipient) {
      CountsIs(ms, ds, recipient, i);
    }
  }

  /** A candidate says how many rows are unread, the id of the last of them, and whether any is of
      an announcement. */
  lemma CandidateExactly(s: Ledger, recipient: string)
    requires S.WellFormed(s)
    ensures var x, rows := CandidateFor(s, recipient), UnreadRows(s.deliveries, recipient);
            && x.recipient == recipient && x.unread == |rows|
            && (x.high > 0 ==> x.high - 1 in rows) && (forall i :: i in rows ==> i < x.high)
            && (x.broadcast <==> AnyAnnounced(s.messages, s.deliveries, recipient))
  {
    GroupIs(s.messages, s.deliveries, recipient);
    HighIs(s.messages, s.deliveries, recipient);
  }

  /** Every ring of this recipient in this mode that counts was for a lower row. */
  ghost predicate NewSince(rings: seq<Ring>, recipient: string, mode: string, high: nat) {
    high > 0 && forall r :: r in rings && r.recipient == recipient && r.mode == mode
                            && r.outcome in {"SUCCESS", "SUCCESS_LEGACY", "SHADOW_ONLY", "TEXT_ONLY", "QUEUED"}
                            ==> r.high < high
  }

  lemma NewSinceIs(rings: seq<Ring>, recipient: string, mode: string, high: nat)
    ensures NewSince(rings, recipient, mode, high) <==> high > LastRung(rings, recipient, mode)
  {
    var h := LastRung(rings, recipient, mode);
    assert forall r :: r in rings ==> (Rang(r, recipient, mode) <==>
        r.recipient == recipient && r.mode == mode
        && r.outcome in {"SUCCESS", "SUCCESS_LEGACY", "SHADOW_ONLY", "TEXT_ONLY", "QUEUED"});
  }

  /** Who is rung this round: whoever is not removed, whose snooze is over, who has mail not yet read
      above everything that was rung for in this mode, and whose last uncertain ring, if remembered, is
      thirty seconds back. */
  lemma RungThisRound(s: Ledger, rings: seq<Ring>, unknown: map<(string, string), int>, mode: string, c: Clock,
        order: seq<string>, x: Candidate)
    requires S.Lists(order, Awake(s, c.wall))
    ensures x in Chosen(s, rings, unknown, mode, c, order) <==>
              && x == CandidateFor(s, x.recipient) && x.recipient !in s.removed
              && (x.recipient in s.nodes && s.nodes[x.recipient].snoozeUntil.Some?
                  ==> s.nodes[x.recipient].snoozeUntil.value <= c.wall)
              && NewSince(rings, x.recipient, mode, x.high)
              && ((x.recipient, mode) in unknown ==> c.monotonic - unknown[(x.recipient, mode)] >= 30)
  {
    ChosenExactly(s, rings, unknown, mode, c, order);
    NewSinceIs(rings, x.recipient, mode, x.high);
  }

  /** An unread row above the watermark is enough to be a candidate. */
  lemma NothingWaitsUnseen(s: Ledger, rings: seq<Ring>, unknown: map<(string, string), int>, mode: string, c: Clock,
        order: seq<string>, i: nat)
    requires S.Lists(order, Awake(s, c.wall)) && S.WellFormed(s)
    requires i < |s.deliveries| && Unread(s.deliveries[i]) && i + 1 > LastRung(rings, s.deliveries[i].recipient, mode)
    requires Listens(s, s.deliveries[i].recipient, c.wall)
             && !Cooling(unknown, s.deliveries[i].recipient, mode, c.monotonic)
    ensures CandidateFor(s, s.deliveries[i].recipient) in Chosen(s, rings, unknown, mode, c, order)
  {
    var r := s.deliveries[i].recipient;
    GroupFacts(s.messages, s.deliveries, r);
    assert Counts(s.messages, s.deliveries[i], r);
    ChosenExactly(s, rings, unknown, mode, c, order);
  }

  lemma ChosenMore(s: Ledger, rings: seq<Ring>, unknown: map<(string, string), int>, mode: string, c: Clock,
        order: seq<string>, i: nat)
    requires i < |order|
    ensures var r := order[i]; var x := CandidateFor(s, r);
            Chosen(s, rings, unknown, mode, c, order[..i + 1]) == Chosen(s, rings, unknown, mode, c, order[..i])
              + if x.high > LastRung(rings, r, mode) && !Cooling(unknown, r, mode, c.monotonic) then [x] else []
  {
    assert order[..i + 1][..i] == order[..i];
  }

  /** Observations after the groups of these recipients were inserted. */
  ghost predicate Noted(before: map<(string, string), nat>, after: map<(string, string), nat>,
        groups: map<string, Group>, seen: seq<string>, round: nat)
  {
    && (forall k :: k in after <==> k in before || (k.0 in seen && k.0 in groups && k.1 in groups[k.0].mids))
    && (forall k :: k in after ==> after[k] == if k in before then before[k] else round)
  }

  lemma NotedMore(before: map<(string, string), nat>, now: map<(string, string), nat>,
        after: map<(string, string), nat>,
                  groups: map<string, Group>, seen: seq<string>, r: string, round: nat)
    requires Noted(before, now, groups, seen, round) && r in groups
    requires forall k :: k in after <==> k in now || (k.0 == r && k.1 in groups[r].mids)
    requires forall k :: k in after ==> after[k] == if k in now then now[k] else round
    ensures Noted(before, after, groups, seen + [r], round)
  {
  }

  class Poller {
    /** Observation rows, with the number of the round that wrote them first. */
    var observations: map<(string, string), nat>
    var rings: seq<Ring>
    var rounds: seq<Status>
    var unknown: map<(string, string), int>

    constructor ()
      ensures observations == map[] && rings == [] && rounds == [] && unknown == map[]
    {
      observations, rings, rounds, unknown := map[], [], [], map[];
    }

    /** INSERT OR IGNORE of one recipient's unread messages. */
    method Observe(recipient: string, mids: seq<string>)
      modifies this`observations
      ensures forall k :: k in observations <==> k in old(observations) || (k.0 == recipient && k.1 in mids)
      ensures forall k :: k in observations ==>
                observations[k] == if k in old(observations) then old(observations)[k] else |rounds|
    {
      var added := map m | m in mids && (recipient, m) !in observations :: (recipient, m) := |rounds|;
      observations := observations + added;
    }

    /** The loop of decide over what the scan returned, in the order sorted() puts it in. */
    method Gather(s: Ledger, groups: map<string, Group>, mode: string, c: Clock, order: seq<string>)
        returns (out: seq<Candidate>)
      requires forall r :: r in order ==> r in groups && groups[r] == GroupOf(s.messages, s.deliveries, r)
      modifies this`observations
      ensures Noted(old(observations), observations, groups, order, |rounds|)
      ensures out == Chosen(s, rings, unknown, mode, c, order)
    {
      out := [];
      var i := 0;
      while i < |order|
        invariant i <= |order| && Noted(old(observations), observations, groups, order[..i], |rounds|)
        invariant out == Chosen(s, rings, unknown, mode, c, order[..i])
      {
        var r := order[i];
        ghost var before := observations;
        var g := groups[r];
        Observe(r, g.mids);
        assert order[..i + 1] == order[..i] + [r];
        NotedMore(old(observations), before, observations, groups, order[..i], r, |rounds|);
        ChosenMore(s, rings, unknown, mode, c, order, i);
        if g.high > LastRung(rings, r, mode) && !Cooling(unknown, r, mode, c.monotonic) {
          out := out + [Candidate(r, |g.mids|, g.high, g.broadcast)];
        }
        i := i + 1;
      }
      assert order[..i] == order;
    }

    /** decide: observations, the candidates, and the round row, all in one commit. `order` is
        the order sorted() puts the scanned recipients in. */
    method Decide(s: Ledger, mode: string, c: Clock, order: seq<string>) returns (out: seq<Candidate>)
      requires S.Lists(order, Awake(s, c.wall))
      modifies this`observations, this`rounds
      ensures rounds == old(rounds) + [OK]
      ensures forall k :: k in observations <==> k in old(observations) || Scanned(s, c.wall, k.0, k.1)
      ensures forall k :: k in observations ==>
                observations[k] == if k in old(observations) then old(observations)[k] else |old(rounds)|
      ensures out == Chosen(s, rings, unknown, mode, c, order)
    {
      var groups := ScanUnread(s, c.wall);
      out := Gather(s, groups, mode, c, order);
      ScannedAre(s, c.wall, order);
      rounds := rounds + [OK];
    }

    /** record_ring. `broken`: its ledger raises, after the uncertain attempt was noted or forgotten. */
    method RecordRing(recipient: string, high: nat, mode: string, outcome: string, now: int, broken: bool)
      returns (wrote: bool, raised: bool)
      modifies this`rings, this`unknown
      ensures raised == broken
      ensures rings == if broken then old(rings) else Record(old(rings), Ring(recipient, high, mode, outcome))
      ensures wrote <==> !broken && Ring(recipient, high, mode, outcome) !in old(rings)
      ensures unknown ==
              if outcome == "UNKNOWN" then old(unknown)[(recipient, mode) := now]
              else old(unknown) - {(recipient, mode)}
    {
      if outcome == "UNKNOWN" {
        unknown := unknown[(recipient, mode) := now];
      } else {
        unknown := unknown - {(recipient, mode)};
      }
      if broken {
        return false, true;
      }
      if Ring(recipient, high, mode, outcome) in rings {
        return false, false;
      }
      rings := rings + [Ring(recipient, high, mode, outcome)];
      return true, false;
    }
  }
}
