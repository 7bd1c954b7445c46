/** One notifier process beside a bus that keeps changing: rounds, deliveries, crashes, restarts. */
module PollRuns {
  import opened Tables
  import opened Deliveries
  import opened DoorbellPoll
  import B = BusRuns
  import O = Overlaps
  import Races
  import S = Sending

  /** One call of the injector in the current process; no outcome when it raised. */
  datatype Attempt = Attempt(recipient: string, start: int, end: int, outcome: Option<string>)

  datatype Sys = Sys(
    ledger: Ledger,
    observations: map<(string, string), nat>,
    rings: seq<Ring>,
    rounds: seq<Status>,
    unknown: map<(string, string), int>,
    pending: seq<Candidate>,
    mode: string,
    clock: int,
    attempts: seq<Attempt>
  )

  datatype PollOp =
    | Bus(write: O.Write)                       // any transaction of the bus, whatever its call had read
    | Tick(dt: nat)                             // monotonic time passes
    | Decide(wall: int, order: seq<string>)     // a round commits and hands over its candidates
    | FailRound                                 // a round that raised before its commit
    | Ring(outcome: string, took: nat)          // deliver the next candidate and record the outcome
    | Abort(attempted: bool, took: nat)         // an exception ends the round, perhaps during a delivery
    | Lose(outcome: string, took: nat)          // as Ring, but the ring cannot be written: the round ends
    | Restart(mode: string)                     // a new process, perhaps in another mode

  ghost predicate Enabled(s: Sys, op: PollOp) {
    match op
    case Bus(w) => O.Sensible(w) && O.AckInTime(s.ledger, w)
    case Decide(wall, order) => s.pending == [] && S.Lists(order, Awake(s.ledger, wall))
    case Ring(_, _) => s.pending != []
    case Lose(_, _) => s.pending != []
    case Abort(attempted, _) => attempted ==> s.pending != []
    case _ => true
  }

  /** In SHADOW mode only an announcement is really delivered. */
  predicate Injects(mode: string, x: Candidate) {
    mode != "SHADOW" || x.broadcast
  }

  function Remember(unknown: map<(string, string), int>, key: (string, string), outcome: string,
        now: int): map<(string, string), int>
  {
    if outcome == "UNKNOWN" then unknown[key := now] else unknown - {key}
  }

  ghost function Observed(s: Sys, wall: int): map<(string, string), nat> {
    s.observations + map r, m | r in Awake(s.ledger, wall)
    && m in GroupOf(s.ledger.messages, s.ledger.deliveries, r).mids
                                && (r, m) !in s.observations :: (r, m) := |s.rounds|
  }

  /** One candidate delivered and its outcome recorded. record_ring notes or forgets an uncertain
      attempt before it opens its ledger. */
  function Rung(s: Sys, outcome: string, took: nat): Sys
    requires s.pending != []
  {
    var x := s.pending[0];
    if Injects(s.mode, x) then
      s.(rings := Record(s.rings, DoorbellPoll.Ring(x.recipient, x.high, s.mode, outcome)),
         unknown := Remember(s.unknown, (x.recipient, s.mode), outcome, s.clock + took),
         clock := s.clock + took, pending := s.pending[1..],
         attempts := s.attempts + [Attempt(x.recipient, s.clock, s.clock + took, Some(outcome))])
    else
      s.(rings := Record(s.rings, DoorbellPoll.Ring(x.recipient, x.high, s.mode, "SHADOW_ONLY")),
         unknown := Remember(s.unknown, (x.recipient, s.mode), "SHADOW_ONLY", s.clock), pending := s.pending[1..])
  }

  ghost function Next(env: Env, s: Sys, op: PollOp): Sys
    requires Enabled(s, op)
  {
    match op
    case Bus(w) => s.(ledger := O.Commit(env, s.ledger, w))
    case Tick(dt) => s.(clock := s.clock + dt)
    case Decide(wall, order) =>
      s.(observations := Observed(s, wall), rounds := s.rounds + [OK],
         pending := Chosen(s.ledger, s.rings, s.unknown, s.mode, Clock(wall, s.clock), order))
    case FailRound => s.(rounds := s.rounds + [ERROR], pending := [])
    case Ring(outcome, took) => Rung(s, outcome, took)
    case Lose(outcome, took) => Rung(s, outcome, took).(rings := s.rings, pending := [])
    case Abort(attempted, took) =>
      if attempted then
        s.(clock := s.clock + took, pending := [],
           attempts := s.attempts + [Attempt(s.pending[0].recipient, s.clock, s.clock + took, None)])
      else s.(pending := [])
    case Restart(mode) => s.(unknown := map[], pending := [], mode := mode, attempts := [])
  }

  const START := Sys(EMPTY, map[], [], [], map[], [], "LIVE", 0, [])

  // ─── what every round keeps ───────────────────────────────────

  /** Every row of r that is still unread at or below h has been observed. */
  ghost predicate Seen(s: Sys, r: string, h: nat) {
    forall i :: 0 <= i < h && i < |s.ledger.deliveries| && s.ledger.deliveries[i].recipient == r
                && Unread(s.ledger.deliveries[i])
                ==> (r, s.ledger.deliveries[i].mid) in s.observations
  }

  ghost predicate Marks(s: Sys, r: string, h: nat) {
    1 <= h <= |s.ledger.deliveries| && s.ledger.deliveries[h - 1].recipient == r && Seen(s, r, h)
  }

  ghost predicate ObservationsCommitted(s: Sys) {
    forall k :: k in s.observations ==> s.observations[k] < |s.rounds| && s.rounds[s.observations[k]] == OK
  }

  /** High marks of suppressing rings only go up, per recipient and mode. */
  ghost predicate Ascending(rings: seq<Ring>) {
    forall i, j :: 0 <= i < j < |rings| && Suppresses(rings[i].outcome) && Suppresses(rings[j].outcome)
                   && rings[i].recipient == rings[j].recipient && rings[i].mode == rings[j].mode
                   ==> rings[i].high < rings[j].high
  }

  ghost predicate Waits(s: Sys, x: Candidate) {
    && Marks(s, x.recipient, x.high)
    && x.high > LastRung(s.rings, x.recipient, s.mode)
    && !Cooling(s.unknown, x.recipient, s.mode, s.clock)
  }

  ghost predicate PendingOk(s: Sys) {
    && (forall i :: 0 <= i < |s.pending| ==> Waits(s, s.pending[i]))
    && (forall i, j :: 0 <= i < j < |s.pending| ==> s.pending[i].recipient != s.pending[j].recipient)
  }

  ghost predicate RingsOk(s: Sys) {
    forall r :: r in s.rings ==> Marks(s, r.recipient, r.high)
  }

  predicate WasUnknown(a: Attempt) {
    a.outcome == Some("UNKNOWN")
  }

  /** After an uncertain attempt the same recipient is left alone for thirty seconds. */
  ghost predicate Spaced(attempts: seq<Attempt>) {
    forall i, j :: 0 <= i < j < |attempts| && attempts[i].recipient == attempts[j].recipient && WasUnknown(attempts[i])
                   ==> attempts[j].start >= attempts[i].end + UNKNOWN_RETRY_SECONDS
  }

  ghost predicate Remembered(s: Sys) {
    forall i :: 0 <= i < |s.attempts| && WasUnknown(s.attempts[i]) ==>
      || ((s.attempts[i].recipient, s.mode) in s.unknown
          && s.unknown[(s.attempts[i].recipient, s.mode)] >= s.attempts[i].end)
      || s.clock >= s.attempts[i].end + UNKNOWN_RETRY_SECONDS
  }

  ghost predicate PollInv(s: Sys) {
    S.WellFormed(s.ledger) && B.AllSane(s.ledger) && ObservationsCommitted(s) && RingsOk(s) && PendingOk(s)
    && Ascending(s.rings) && Spaced(s.attempts) && Remembered(s)
  }

  // ─── each kind of step ────────────────────────────────────────

  lemma BusKeepsMarks(env: Env, s: Sys, w: O.Write, r: string, h: nat)
    requires Enabled(s, Bus(w)) && B.AllSane(s.ledger) && Marks(s, r, h)
    ensures Marks(Next(env, s, Bus(w)), r, h)
  {
    var t := Next(env, s, Bus(w));
    O.CommitAndRows(env, s.ledger, w);
    forall i | 0 <= i < |s.ledger.deliveries|
      ensures t.ledger.deliveries[i].recipient == s.ledger.deliveries[i].recipient
              && t.ledger.deliveries[i].mid == s.ledger.deliveries[i].mid
              && (Unread(t.ledger.deliveries[i]) ==> Unread(s.ledger.deliveries[i]))
    {
      RowStepFacts(s.ledger.deliveries[i], t.ledger.deliveries[i]);
    }
  }

  lemma BusKeeps(env: Env, s: Sys, w: O.Write)
    requires PollInv(s) && Enabled(s, Bus(w))
    ensures PollInv(Next(env, s, Bus(w)))
  {
    var t := Next(env, s, Bus(w));
    O.CommitKeepsTables(env, s.ledger, w);
    O.CommitKeepsSane(env, s.ledger, w);
    forall r | r in s.rings ensures Marks(t, r.recipient, r.high) {
      BusKeepsMarks(env, s, w, r.recipient, r.high);
    }
    forall i | 0 <= i < |s.pending| ensures Waits(t, s.pending[i]) {
      assert Waits(s, s.pending[i]);
      BusKeepsMarks(env, s, w, s.pending[i].recipient, s.pending[i].high);
    }
  }

  /** A round writes an observation for every unread row of everyone it scans. */
  lemma RoundSees(s: Sys, wall: int, r: string)
    requires S.WellFormed(s.ledger) && r in Awake(s.ledger, wall)
    ensures forall i :: 0 <= i < |s.ledger.deliveries| && s.ledger.deliveries[i].recipient == r
                        && Unread(s.ledger.deliveries[i])
                        ==> (r, s.ledger.deliveries[i].mid) in Observed(s, wall)
  {
    GroupFacts(s.ledger.messages, s.ledger.deliveries, r);
    forall i | 0 <= i < |s.ledger.deliveries| && s.ledger.deliveries[i].recipient == r && Unread(s.ledger.deliveries[i])
      ensures (r, s.ledger.deliveries[i].mid) in Observed(s, wall)
    {
      assert Counts(s.ledger.messages, s.ledger.deliveries[i], r);
    }
  }

  lemma ChosenIs(s: Sys, wall: int, order: seq<string>, x: Candidate)
    requires S.Lists(order, Awake(s.ledger, wall))
    requires x in Chosen(s.ledger, s.rings, s.unknown, s.mode, Clock(wall, s.clock), order)
    ensures x == CandidateFor(s.ledger, x.recipient) && x.recipient in Awake(s.ledger, wall) && x.high > 0
    ensures x.high > LastRung(s.rings, x.recipient, s.mode) && !Cooling(s.unknown, x.recipient, s.mode, s.clock)
  {
    ChosenExactly(s.ledger, s.rings, s.unknown, s.mode, Clock(wall, s.clock), order);
    AwakeIs(s.ledger, wall, x.recipient);
  }

  lemma HighIs(ms: seq<Message>, ds: seq<Delivery>, r: string)
    ensures var h := GroupOf(ms, ds, r).high; h <= |ds| && (h > 0 ==> ds[h - 1].recipient == r)
  {
    GroupFacts(ms, ds, r);
  }

  lemma CandidateMarks(s: Sys, wall: int, x: Candidate)
    requires S.WellFormed(s.ledger) && x == CandidateFor(s.ledger, x.recipient) && x.recipient in Awake(s.ledger, wall)
             && x.high > 0
    ensures Marks(s.(observations := Observed(s, wall)), x.recipient, x.high)
  {
    HighIs(s.ledger.messages, s.ledger.deliveries, x.recipient);
    RoundSees(s, wall, x.recipient);
  }

  /** Marks look only at the deliveries and the observations, and more observations do no harm. */
  lemma MarksStay(s: Sys, t: Sys)
    requires t.ledger.deliveries == s.ledger.deliveries && s.observations.Keys <= t.observations.Keys
    ensures forall r, h :: Marks(s, r, h) ==> Marks(t, r, h)
  {
  }

  lemma MarkStays(s: Sys, t: Sys, r: string, h: nat)
    requires t.ledger.deliveries == s.ledger.deliveries && s.observations.Keys <= t.observations.Keys && Marks(s, r, h)
    ensures Marks(t, r, h)
  {
  }

  lemma DecideKeepsPending(env: Env, s: Sys, wall: int, order: seq<string>)
    requires S.WellFormed(s.ledger) && Enabled(s, Decide(wall, order))
    ensures PendingOk(Next(env, s, Decide(wall, order)))
  {
    var t := Next(env, s, Decide(wall, order));
    ChosenExactly(s.ledger, s.rings, s.unknown, s.mode, Clock(wall, s.clock), order);
    MarksStay(s.(observations := Observed(s, wall)), t);
    forall i | 0 <= i < |t.pending| ensures Waits(t, t.pending[i]) {
      ChosenIs(s, wall, order, t.pending[i]);
      CandidateMarks(s, wall, t.pending[i]);
    }
  }

  lemma DecideKeepsCommitted(env: Env, s: Sys, wall: int, order: seq<string>)
    requires ObservationsCommitted(s) && Enabled(s, Decide(wall, order))
    ensures ObservationsCommitted(Next(env, s, Decide(wall, order)))
  {
  }

  lemma DecideKeeps(env: Env, s: Sys, wall: int, order: seq<string>)
    requires PollInv(s) && Enabled(s, Decide(wall, order))
    ensures PollInv(Next(env, s, Decide(wall, order)))
  {
    DecideKeepsPending(env, s, wall, order);
    DecideKeepsCommitted(env, s, wall, order);
    MarksStay(s, Next(env, s, Decide(wall, order)));
  }

  lemma RecordAscends(rings: seq<Ring>, r: Ring)
    requires Ascending(rings) && r.high > LastRung(rings, r.recipient, r.mode)
    ensures Ascending(Record(rings, r))
  {
    assert forall i :: 0 <= i < |rings| ==> rings[i] in rings;
  }

  /** Recording for one recipient leaves the watermarks of the others where they were. */
  lemma RecordElsewhere(rings: seq<Ring>, r: Ring, recipient: string, mode: string)
    requires r.recipient != recipient
    ensures LastRung(Record(rings, r), recipient, mode) == LastRung(rings, recipient, mode)
  {
    LastRungAfter(rings, r, recipient, mode);
  }

  /** The outcome a ring step records. */
  function Outcome(s: Sys, op: PollOp): string
    requires op.Ring? && s.pending != []
  {
    if Injects(s.mode, s.pending[0]) then op.outcome else "SHADOW_ONLY"
  }

  /** Ringing one recipient does not disturb another that waits its turn. */
  lemma StillWaits(env: Env, s: Sys, op: PollOp, y: Candidate)
    requires op.Ring? && Enabled(s, op) && Waits(s, y) && y.recipient != s.pending[0].recipient
    ensures Waits(Next(env, s, op), y)
  {
    var x := s.pending[0];
    var t := Next(env, s, op);
    MarkStays(s, t, y.recipient, y.high);
    assert LastRung(t.rings, y.recipient, s.mode) == LastRung(s.rings, y.recipient, s.mode) by {
      RecordElsewhere(s.rings, DoorbellPoll.Ring(x.recipient, x.high, s.mode, Outcome(s, op)), y.recipient, s.mode);
    }
  }

  lemma RingKeepsPending(env: Env, s: Sys, op: PollOp)
    requires PendingOk(s) && op.Ring? && Enabled(s, op)
    ensures PendingOk(Next(env, s, op))
  {
    var t := Next(env, s, op);
    forall i | 0 <= i < |t.pending| ensures Waits(t, t.pending[i]) {
      assert t.pending[i] == s.pending[i + 1];
      assert Waits(s, s.pending[i + 1]);
      StillWaits(env, s, op, s.pending[i + 1]);
    }
  }

  lemma RingKeepsRings(env: Env, s: Sys, op: PollOp)
    requires PendingOk(s) && RingsOk(s) && op.Ring? && Enabled(s, op)
    ensures RingsOk(Next(env, s, op))
  {
    MarksStay(s, Next(env, s, op));
    assert Waits(s, s.pending[0]);
  }

  lemma AttemptKeepsSpacing(s: Sys, x: Candidate, took: nat, outcome: Option<string>,
        unknown: map<(string, string), int>)
    requires Spaced(s.attempts) && Remembered(s) && !Cooling(s.unknown, x.recipient, s.mode, s.clock)
    requires forall k :: k != (x.recipient, s.mode)
                         ==> (k in unknown <==> k in s.unknown) && (k in unknown ==> unknown[k] == s.unknown[k])
    requires outcome == Some("UNKNOWN")
             ==> (x.recipient, s.mode) in unknown && unknown[(x.recipient, s.mode)] == s.clock + took
    ensures var t := s.(clock := s.clock + took, unknown := unknown,
                        attempts := s.attempts + [Attempt(x.recipient, s.clock, s.clock + took, outcome)]);
            Spaced(t.attempts) && Remembered(t)
  {
  }

  lemma RingKeepsSpacing(env: Env, s: Sys, op: PollOp)
    requires PendingOk(s) && Spaced(s.attempts) && Remembered(s) && op.Ring? && Enabled(s, op)
    ensures Spaced(Next(env, s, op).attempts) && Remembered(Next(env, s, op))
  {
    var x := s.pending[0];
    assert Waits(s, x);
    if Injects(s.mode, x) {
      AttemptKeepsSpacing(s, x, op.took, Some(op.outcome),
          Remember(s.unknown, (x.recipient, s.mode), op.outcome, s.clock + op.took));
    } else {
      assert !Cooling(s.unknown, x.recipient, s.mode, s.clock);
    }
  }

  lemma RingKeepsAscending(env: Env, s: Sys, op: PollOp)
    requires PendingOk(s) && Ascending(s.rings) && op.Ring? && Enabled(s, op)
    ensures Ascending(Next(env, s, op).rings)
  {
    var x := s.pending[0];
    assert Waits(s, x);
    RecordAscends(s.rings, DoorbellPoll.Ring(x.recipient, x.high, s.mode, Outcome(s, op)));
  }

  lemma RingKeeps(env: Env, s: Sys, op: PollOp)
    requires PollInv(s) && op.Ring? && Enabled(s, op)
    ensures PollInv(Next(env, s, op))
  {
    RingKeepsPending(env, s, op);
    RingKeepsRings(env, s, op);
    RingKeepsAscending(env, s, op);
    RingKeepsSpacing(env, s, op);
  }

  lemma TickKeeps(env: Env, s: Sys, dt: nat)
    requires PollInv(s)
    ensures PollInv(Next(env, s, Tick(dt)))
  {
    MarksStay(s, Next(env, s, Tick(dt)));
    assert forall x :: Waits(s, x) ==> Waits(Next(env, s, Tick(dt)), x);
  }

  lemma FailKeeps(env: Env, s: Sys)
    requires PollInv(s)
    ensures PollInv(Next(env, s, FailRound))
  {
    MarksStay(s, Next(env, s, FailRound));
  }

  lemma AbortKeeps(env: Env, s: Sys, attempted: bool, took: nat)
    requires PollInv(s) && Enabled(s, Abort(attempted, took))
    ensures PollInv(Next(env, s, Abort(attempted, took)))
  {
    AbortKeepsSpacing(env, s, attempted, took);
    MarksStay(s, Next(env, s, Abort(attempted, took)));
  }

  lemma AbortKeepsSpacing(env: Env, s: Sys, attempted: bool, took: nat)
    requires PendingOk(s) && Spaced(s.attempts) && Remembered(s) && Enabled(s, Abort(attempted, took))
    ensures Spaced(Next(env, s, Abort(attempted, took)).attempts) && Remembered(Next(env, s, Abort(attempted, took)))
  {
    if attempted {
      assert Waits(s, s.pending[0]);
      AttemptKeepsSpacing(s, s.pending[0], took, None, s.unknown);
    }
  }

  lemma LoseKeeps(env: Env, s: Sys, outcome: string, took: nat)
    requires PollInv(s) && Enabled(s, Lose(outcome, took))
    ensures PollInv(Next(env, s, Lose(outcome, took)))
  {
    RingKeepsSpacing(env, s, PollOp.Ring(outcome, took));
    var t := Next(env, s, Lose(outcome, took));
    LoseKeepsSpacing(Next(env, s, PollOp.Ring(outcome, took)), t);
    MarksStay(s, t);
  }

  lemma LoseKeepsSpacing(rung: Sys, t: Sys)
    requires Spaced(rung.attempts) && Remembered(rung)
    requires t.attempts == rung.attempts && t.unknown == rung.unknown && t.mode == rung.mode && t.clock == rung.clock
    ensures Spaced(t.attempts) && Remembered(t)
  {
  }

  lemma RestartKeeps(env: Env, s: Sys, mode: string)
    requires PollInv(s)
    ensures PollInv(Next(env, s, Restart(mode)))
  {
    MarksStay(s, Next(env, s, Restart(mode)));
  }

  lemma NextKeeps(env: Env, s: Sys, op: PollOp)
    requires PollInv(s) && Enabled(s, op)
    ensures PollInv(Next(env, s, op))
  {
    match op
    case Bus(w) => BusKeeps(env, s, w);
    case Decide(wall, order) => DecideKeeps(env, s, wall, order);
    case Ring(_, _) => RingKeeps(env, s, op);
    case Tick(dt) => TickKeeps(env, s, dt);
    case FailRound => FailKeeps(env, s);
    case Abort(attempted, took) => AbortKeeps(env, s, attempted, took);
    case Lose(outcome, took) => LoseKeeps(env, s, outcome, took);
    case Restart(mode) => RestartKeeps(env, s, mode);
  }

  ghost predicate IsPollRun(env: Env, states: seq<Sys>, ops: seq<PollOp>) {
    && |states| == |ops| + 1
    && states[0] == START
    && forall k: nat :: k < |ops| ==> PollStepAt(env, states, ops, k)
  }

  ghost predicate PollStepAt(env: Env, states: seq<Sys>, ops: seq<PollOp>, k: nat)
    requires k < |ops| && |states| == |ops| + 1
  {
    Enabled(states[k], ops[k]) && states[k + 1] == Next(env, states[k], ops[k])
  }

  lemma {:induction false} EveryPollStateIsGood(env: Env, states: seq<Sys>, ops: seq<PollOp>, k: nat)
    requires IsPollRun(env, states, ops) && k < |states|
    ensures PollInv(states[k])
  {
    if k > 0 {
      EveryPollStateIsGood(env, states, ops, k - 1);
      assert PollStepAt(env, states, ops, k - 1);
      NextKeeps(env, states[k - 1], ops[k - 1]);
    }
  }

  // ─── what that means ──────────────────────────────────────────

  /** Row i is unread at or below its recipient's watermark, and no completed round observed it. */
  predicate Buried(s: Sys, i: nat, mode: string)
    requires i < |s.ledger.deliveries|
  {
    var d := s.ledger.deliveries[i];
    Unread(d) && i + 1 <= LastRung(s.rings, d.recipient, mode) && !SeenByRound(s, d.recipient, d.mid)
  }

  predicate SeenByRound(s: Sys, r: string, mid: string) {
    (r, mid) in s.observations && s.observations[(r, mid)] < |s.rounds| && s.rounds[s.observations[(r, mid)]] == OK
  }

  lemma NotBuried(s: Sys, i: nat, mode: string)
    requires PollInv(s) && i < |s.ledger.deliveries|
    ensures !Buried(s, i, mode)
  {
    var d := s.ledger.deliveries[i];
    if Unread(d) && i + 1 <= LastRung(s.rings, d.recipient, mode) {
      var r :| r in s.rings && Rang(r, d.recipient, mode) && r.high == LastRung(s.rings, d.recipient, mode);
      assert Marks(s, r.recipient, r.high);
    }
  }

  /** No unread delivery is silently buried: at every moment of every run, a delivery that is
      still unread at or below its recipient's watermark, in any mode, was observed by a round
      that completed. */
  lemma NothingIsBuried(env: Env, states: seq<Sys>, ops: seq<PollOp>, k: nat, i: nat, mode: string)
    requires IsPollRun(env, states, ops) && k < |states| && i < |states[k].ledger.deliveries|
    ensures !Buried(states[k], i, mode)
  {
    EveryPollStateIsGood(env, states, ops, k);
    NotBuried(states[k], i, mode);
  }

  /** The runs above let an acknowledgement write only in time. One that writes late, over row i,
      buries that row exactly when it makes it INJECTED again after it had stopped being unread,
      at or below the watermark, without a round ever having observed it; and it buries no other. */
  lemma LateAcknowledgementBuries(s: Sys, i: nat, target: DeliveryState, mode: string)
    requires PollInv(s) && i < |s.ledger.deliveries| && AllowedFrom(target).Some?
    ensures var ds := s.ledger.deliveries;
            var t := s.(ledger := s.ledger.(deliveries := ds[i := Races.Overwrite(ds[i], target)]));
            && (forall j: nat :: j < |ds| && j != i ==> !Buried(t, j, mode))
            && (Buried(t, i, mode) <==>
                  && target.Injected? && !Unread(ds[i])
                  && i + 1 <= LastRung(s.rings, ds[i].recipient, mode)
                     && (ds[i].recipient, ds[i].mid) !in s.observations)
  {
    forall j: nat | j < |s.ledger.deliveries| ensures !Buried(s, j, mode) {
      NotBuried(s, j, mode);
    }
  }

  /** Positions of the suppressing rings of one recipient in one mode. */
  function Successes(rings: seq<Ring>, recipient: string, mode: string): set<nat> {
    set i: nat | i < |rings| && Rang(rings[i], recipient, mode)
  }

  function RowsOf(ds: seq<Delivery>, recipient: string): set<nat> {
    set i: nat | i < |ds| && ds[i].recipient == recipient
  }

  lemma {:induction false} NoMoreThan(xs: set<nat>, ys: set<nat>, f: map<nat, nat>)
    requires f.Keys == xs && (forall x :: x in xs ==> f[x] in ys)
    requires forall x, y :: x in xs && y in xs && x != y ==> f[x] != f[y]
    ensures |xs| <= |ys|
  {
    if xs != {} {
      var x :| x in xs;
      NoMoreThan(xs - {x}, ys - {f[x]}, f - {x});
    }
  }

  lemma SuccessfulRow(s: Sys, i: nat)
    requires RingsOk(s) && i < |s.rings|
    ensures s.rings[i].high >= 1 && s.rings[i].high - 1 in RowsOf(s.ledger.deliveries, s.rings[i].recipient)
  {
    assert s.rings[i] in s.rings;
    assert Marks(s, s.rings[i].recipient, s.rings[i].high);
  }

  lemma SuccessesBounded(s: Sys, recipient: string, mode: string)
    requires RingsOk(s) && Ascending(s.rings)
    ensures |Successes(s.rings, recipient, mode)| <= |RowsOf(s.ledger.deliveries, recipient)|
  {
    forall i: nat | i < |s.rings|
      ensures s.rings[i].high >= 1 && s.rings[i].high - 1 in RowsOf(s.ledger.deliveries, s.rings[i].recipient)
    {
      SuccessfulRow(s, i);
    }
    RingsFit(s.rings, RowsOf(s.ledger.deliveries, recipient), recipient, mode);
  }

  lemma RingsFit(rings: seq<Ring>, rows: set<nat>, recipient: string, mode: string)
    requires Ascending(rings)
    requires forall i: nat :: i < |rings|
                              ==> rings[i].high >= 1 && (rings[i].recipient == recipient ==> rings[i].high - 1 in rows)
    ensures |Successes(rings, recipient, mode)| <= |rows|
  {
    var xs := Successes(rings, recipient, mode);
    NoMoreThan(xs, rows, map i | i in xs :: rings[i].high - 1);
  }

  /** The high marks of successful rings strictly increase, so a recipient is never rung
      successfully, in one mode, more often than it was sent something. */
  lemma RingsAreBounded(env: Env, states: seq<Sys>, ops: seq<PollOp>, k: nat, recipient: string, mode: string)
    requires IsPollRun(env, states, ops) && k < |states|
    ensures Ascending(states[k].rings)
    ensures |Successes(states[k].rings, recipient, mode)| <= |RowsOf(states[k].ledger.deliveries, recipient)|
  {
    EveryPollStateIsGood(env, states, ops, k);
    SuccessesBounded(states[k], recipient, mode);
  }

  lemma QuietRing(env: Env, s: Sys, outcome: string, took: nat)
    requires s.pending != [] && s.mode == "SHADOW" && !s.pending[0].broadcast
    requires s.pending[0].high > LastRung(s.rings, s.pending[0].recipient, s.mode)
    ensures var x, t := s.pending[0], Next(env, s, PollOp.Ring(outcome, took));
            && t.attempts == s.attempts && t.clock == s.clock
            && DoorbellPoll.Ring(x.recipient, x.high, s.mode, "SHADOW_ONLY") in t.rings
            && LastRung(t.rings, x.recipient, s.mode) == x.high
  {
    var x := s.pending[0];
    LastRungAfter(s.rings, DoorbellPoll.Ring(x.recipient, x.high, s.mode, "SHADOW_ONLY"), x.recipient, s.mode);
  }

  lemma EarnestRing(env: Env, s: Sys, outcome: string, took: nat)
    requires s.pending != [] && (s.mode != "SHADOW" || s.pending[0].broadcast)
    ensures var x, t := s.pending[0], Next(env, s, PollOp.Ring(outcome, took));
            t.attempts == s.attempts + [Attempt(x.recipient, s.clock, s.clock + took, Some(outcome))]
            && DoorbellPoll.Ring(x.recipient, x.high, s.mode, outcome) in t.rings
  {
  }

  /** A turn really rings exactly when the mode is not SHADOW or the mail holds an announcement;
      otherwise it starts nothing and is recorded as observed only, which counts as rung for. */
  lemma RingsInEarnestExactly(env: Env, s: Sys, outcome: string, took: nat)
    requires PendingOk(s) && s.pending != []
    ensures var x, t := s.pending[0], Next(env, s, PollOp.Ring(outcome, took));
            if s.mode != "SHADOW" || x.broadcast
            then t.attempts == s.attempts + [Attempt(x.recipient, s.clock, s.clock + took, Some(outcome))]
                 && DoorbellPoll.Ring(x.recipient, x.high, s.mode, outcome) in t.rings
            else t.attempts == s.attempts && t.clock == s.clock
                 && DoorbellPoll.Ring(x.recipient, x.high, s.mode, "SHADOW_ONLY") in t.rings
                 && LastRung(t.rings, x.recipient, s.mode) == x.high
  {
    if s.mode != "SHADOW" || s.pending[0].broadcast {
      EarnestRing(env, s, outcome, took);
    } else {
      assert Waits(s, s.pending[0]);
      QuietRing(env, s, outcome, took);
    }
  }

  /** In one process, whatever follows an attempt with an unknown outcome for the same recipient
      starts at least thirty seconds after it ended. */
  lemma UnknownIsGivenTime(env: Env, states: seq<Sys>, ops: seq<PollOp>, k: nat, i: nat, j: nat)
    requires IsPollRun(env, states, ops) && k < |states| && i < j < |states[k].attempts|
    requires states[k].attempts[i].recipient == states[k].attempts[j].recipient
    requires states[k].attempts[i].outcome == Some("UNKNOWN")
    ensures states[k].attempts[j].start - states[k].attempts[i].end >= 30
  {
    EveryPollStateIsGood(env, states, ops, k);
  }
}
