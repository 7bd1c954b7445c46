/** A run of the notifier in which a late acknowledgement buries a delivery. */
module BuriedMail {
  import opened Tables
  import opened Deliveries
  import opened DoorbellPoll
  import opened PollRuns
  import opened Scenes
  import B = BusRuns
  import O = Overlaps
  import S = Sending

  function FirstMessage(env: Env): Message {
    S.Envelope(env, [], TO_B)
  }

  function SecondMessage(env: Env): Message {
    S.Envelope(env, [FirstMessage(env)], Letter("a", ["b"], "n", None, [], ["b"]))
  }

  /** The first delivery, at each stage of its life. */
  const NEW := Delivery("m", "b", Accepted, 0, None, None)
  const TAKEN := Delivery("m", "b", Claimed, 1, Some(0), Some("reader"))

  function OneRow(env: Env, d: Delivery): Ledger {
    PAIR.(messages := [FirstMessage(env)], deliveries := [d])
  }

  function TwoRows(env: Env, d: Delivery): Ledger {
    PAIR.(messages := [FirstMessage(env), SecondMessage(env)],
        deliveries := [d, Delivery("n", "b", Accepted, 0, None, None)])
  }

  const LATE := O.PutState("b", "m", Injected)

  // ─── the ledger's part ────────────────────────────────────────

  lemma Arrives(env: Env)
    ensures O.Commit(env, PAIR, O.Insert(FirstMessage(env), ["b"])) == OneRow(env, NEW)
    ensures O.Sensible(O.Insert(FirstMessage(env), ["b"]))
  {
    assert S.Rows("m", ["b"]) == [NEW];
  }

  lemma Moves(env: Env)
    ensures O.Commit(env, OneRow(env, NEW), O.Single(B.Claim(1, 0, "reader"))) == OneRow(env, TAKEN)
    ensures O.Commit(env, OneRow(env, TAKEN), LATE) == OneRow(env, TAKEN.(state := Injected))
    ensures O.Commit(env, OneRow(env, TAKEN.(state := Injected)), O.PutState("b", "m", Read)) ==
            OneRow(env, TAKEN.(state := Read))
  {
  }

  lemma ArrivesSecond(env: Env, d: Delivery)
    ensures O.Commit(env, OneRow(env, d), O.Insert(SecondMessage(env), ["b"])) == TwoRows(env, d)
    ensures O.Sensible(O.Insert(SecondMessage(env), ["b"]))
  {
    assert "m" != "n" by { assert "m"[0] != "n"[0]; }
    assert S.Rows("n", ["b"]) == [Delivery("n", "b", Accepted, 0, None, None)];
  }

  lemma ComesLate(env: Env)
    ensures O.Commit(env, TwoRows(env, TAKEN.(state := Read)), LATE) == TwoRows(env, TAKEN.(state := Injected))
  {
    assert "m" != "n" by { assert "m"[0] != "n"[0]; }
  }

  // ─── the run ──────────────────────────────────────────────────

  ghost predicate Ends(env: Env, states: seq<Sys>, ops: seq<PollOp>, n: nat, s: Sys) {
    IsPollRun(env, states, ops) && |ops| == n && states[n] == s
  }

  lemma OneMore(env: Env, states: seq<Sys>, ops: seq<PollOp>, n: nat, s: Sys, op: PollOp, t: Sys)
    requires Ends(env, states, ops, n, s) && Enabled(s, op) && t == Next(env, s, op)
    ensures Ends(env, states + [t], ops + [op], n + 1, t)
    ensures forall k :: 0 <= k <= n ==> (states + [t])[k] == states[k]
  {
    var longer, more := states + [t], ops + [op];
    forall k: nat | k < |more| ensures PollStepAt(env, longer, more, k) {
      if k < n { assert PollStepAt(env, states, ops, k); }
    }
  }

  lemma OneWrite(env: Env, states: seq<Sys>, ops: seq<PollOp>, n: nat, s: Ledger, w: O.Write, t: Ledger)
    returns (longer: seq<Sys>, more: seq<PollOp>)
    requires Ends(env, states, ops, n, START.(ledger := s)) && O.Sensible(w) && O.AckInTime(s, w)
             && t == O.Commit(env, s, w)
    ensures Ends(env, longer, more, n + 1, START.(ledger := t))
    ensures |states| == n + 1 && longer == states + [START.(ledger := t)]
  {
    longer, more := states + [START.(ledger := t)], ops + [Bus(w)];
    OneMore(env, states, ops, n, START.(ledger := s), Bus(w), START.(ledger := t));
  }

  lemma BothRegister(env: Env) returns (states: seq<Sys>, ops: seq<PollOp>)
    ensures Ends(env, states, ops, 2, START.(ledger := PAIR))
  {
    states, ops := [START], [];
    var one := EMPTY.(nodes := map["a" := AGENT]);
    assert O.Commit(env, EMPTY, O.PutNode(Agent("a"))) == one;
    states, ops := OneWrite(env, states, ops, 0, EMPTY, O.PutNode(Agent("a")), one);
    assert one.nodes["b" := AGENT] == PAIR.nodes;
    assert O.Commit(env, one, O.PutNode(Agent("b"))) == PAIR;
    states, ops := OneWrite(env, states, ops, 1, one, O.PutNode(Agent("b")), PAIR);
  }

  /** A message arrives and is claimed. */
  lemma FirstIsTaken(env: Env) returns (states: seq<Sys>, ops: seq<PollOp>)
    ensures Ends(env, states, ops, 4, START.(ledger := OneRow(env, TAKEN)))
  {
    states, ops := BothRegister(env);
    Arrives(env);
    states, ops := OneWrite(env, states, ops, 2, PAIR, O.Insert(FirstMessage(env), ["b"]), OneRow(env, NEW));
    Moves(env);
    states, ops := OneWrite(env, states, ops, 3, OneRow(env, NEW), O.Single(B.Claim(1, 0, "reader")),
        OneRow(env, TAKEN));
  }

  /** It is read before any round, and another arrives. */
  lemma SecondArrives(env: Env) returns (states: seq<Sys>, ops: seq<PollOp>)
    ensures Ends(env, states, ops, 7, START.(ledger := TwoRows(env, TAKEN.(state := Read))))
    ensures |states| == 8 && states[4] == START.(ledger := OneRow(env, TAKEN))
  {
    states, ops := FirstIsTaken(env);
    Moves(env);
    states, ops := OneWrite(env, states, ops, 4, OneRow(env, TAKEN), LATE, OneRow(env, TAKEN.(state := Injected)));
    states, ops := OneWrite(env, states, ops, 5, OneRow(env, TAKEN.(state := Injected)), O.PutState("b", "m", Read),
                            OneRow(env, TAKEN.(state := Read)));
    ArrivesSecond(env, TAKEN.(state := Read));
    states, ops := OneWrite(env, states, ops, 6, OneRow(env, TAKEN.(state := Read)),
        O.Insert(SecondMessage(env), ["b"]),
                            TwoRows(env, TAKEN.(state := Read)));
  }

  lemma OnlySecondIsSeen(env: Env)
    ensures var s := TwoRows(env, TAKEN.(state := Read));
            && GroupOf(s.messages, s.deliveries, "b") == Group(["n"], 2, false)
            && S.Lists(["b"], Awake(s, 0))
  {
    var s := TwoRows(env, TAKEN.(state := Read));
    assert "m" != "n" by { assert "m"[0] != "n"[0]; }
    assert s.deliveries[..1] == [TAKEN.(state := Read)] && s.deliveries[..1][..0] == [];
    assert GroupOf(s.messages, s.deliveries[..1], "b") == Group([], 0, false);
    assert Find(s.messages, "n") == Some(SecondMessage(env));
    forall r ensures r in Awake(s, 0) <==> r == "b" {
      AwakeIs(s, 0, r);
      GroupFacts(s.messages, s.deliveries, r);
    }
  }

  lemma OneCandidate(env: Env)
    ensures var s := TwoRows(env, TAKEN.(state := Read));
            Chosen(s, [], map[], "LIVE", Clock(0, 0), ["b"]) == [Candidate("b", 1, 2, false)]
  {
    OnlySecondIsSeen(env);
    assert ["b"][..0] == [];
  }

  lemma FirstIsNotSeen(env: Env)
    ensures ("b", "m") !in Observed(START.(ledger := TwoRows(env, TAKEN.(state := Read))), 0)
  {
    OnlySecondIsSeen(env);
    assert "m" != "n" by { assert "m"[0] != "n"[0]; }
  }

  lemma RoundHandsOver(env: Env)
    ensures var before := START.(ledger := TwoRows(env, TAKEN.(state := Read)));
            && Enabled(before, Decide(0, ["b"]))
            && Next(env, before, Decide(0, ["b"])) ==
                 before.(observations := Observed(before, 0), rounds := [OK], pending := [Candidate("b", 1, 2, false)])
  {
    OnlySecondIsSeen(env);
    OneCandidate(env);
    assert [] + [OK] == [OK];
  }

  ghost function Before(env: Env): Sys {
    START.(ledger := TwoRows(env, TAKEN.(state := Read)))
  }

  ghost function AfterRound(env: Env): Sys {
    Before(env).(observations := Observed(Before(env), 0), rounds := [OK], pending := [Candidate("b", 1, 2, false)])
  }

  lemma BellRings(env: Env, s: Sys)
    requires s == Next(env, AfterRound(env), PollOp.Ring("SUCCESS", 0))
    ensures s.ledger == AfterRound(env).ledger && s.observations == AfterRound(env).observations
    ensures LastRung(s.rings, "b", "LIVE") == 2
  {
    LastRungAfter([], DoorbellPoll.Ring("b", 2, "LIVE", "SUCCESS"), "b", "LIVE");
    assert [] + [DoorbellPoll.Ring("b", 2, "LIVE", "SUCCESS")] == [DoorbellPoll.Ring("b", 2, "LIVE", "SUCCESS")];
  }

  /** A round sees the second message only. */
  lemma RoundRuns(env: Env) returns (states: seq<Sys>, ops: seq<PollOp>)
    ensures Ends(env, states, ops, 8, AfterRound(env)) && |states| == 9 && states[4].ledger == OneRow(env, TAKEN)
  {
    states, ops := SecondArrives(env);
    RoundHandsOver(env);
    OneMore(env, states, ops, 7, Before(env), Decide(0, ["b"]), AfterRound(env));
    states, ops := states + [AfterRound(env)], ops + [Decide(0, ["b"])];
  }

  /** And its bell rings. */
  lemma SecondRings(env: Env) returns (states: seq<Sys>, ops: seq<PollOp>, s: Sys)
    ensures Ends(env, states, ops, 9, s) && states[4].ledger == OneRow(env, TAKEN)
    ensures s.ledger == TwoRows(env, TAKEN.(state := Read)) && LastRung(s.rings, "b", "LIVE") == 2
            && ("b", "m") !in s.observations
  {
    states, ops := RoundRuns(env);
    s := Next(env, AfterRound(env), PollOp.Ring("SUCCESS", 0));
    OneMore(env, states, ops, 8, AfterRound(env), PollOp.Ring("SUCCESS", 0), s);
    states, ops := states + [s], ops + [PollOp.Ring("SUCCESS", 0)];
    BellRings(env, s);
    FirstIsNotSeen(env);
  }

  /** The first message was acknowledged by two calls when it was claimed. One marks it INJECTED, it
      is READ, and a bell for a later message sets the watermark above it. Then the other call's
      write lands: the message is unread again, below the watermark, and no round has seen it. */
  lemma ReadMailIsBuried(env: Env) returns (states: seq<Sys>, ops: seq<PollOp>, s: Sys, t: Sys)
    ensures IsPollRun(env, states, ops) && |ops| == 9 && states[9] == s
    ensures O.ReadAt(states[4].ledger, LATE) && t == s.(ledger := O.Commit(env, s.ledger, LATE))
    ensures |s.ledger.deliveries| == 2 && |t.ledger.deliveries| == 2
    ensures !Unread(s.ledger.deliveries[0]) && Buried(t, 0, "LIVE")
  {
    states, ops, s := SecondRings(env);
    ComesLate(env);
    t := s.(ledger := O.Commit(env, s.ledger, LATE));
    assert OneRow(env, TAKEN).deliveries[0] == TAKEN;
  }
}
