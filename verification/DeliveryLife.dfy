/** What holds of one delivery over a whole run in which each call is one step: how often it may
    change, and who wins it. */
module DeliveryLife {
  import opened Tables
  import opened Deliveries
  import opened BusRuns
  import S = Sending
  import Scenes

  /** Row d (zero-based) exists in the state. */
  predicate Has(s: Ledger, d: nat) {
    d < |s.deliveries|
  }

  lemma {:induction false} RowsStay(env: Env, states: seq<Ledger>, ops: seq<Op>, d: nat, i: nat, j: nat)
    requires IsRun(env, states, ops) && i <= j < |states| && Has(states[i], d)
    ensures Has(states[j], d)
  {
    if i < j {
      RowsStay(env, states, ops, d, i, j - 1);
      RunMovesTable(env, states, ops, j - 1);
    }
  }

  lemma RowMoves(env: Env, states: seq<Ledger>, ops: seq<Op>, d: nat, k: nat)
    requires IsRun(env, states, ops) && k < |ops| && Has(states[k], d)
    ensures Has(states[k + 1], d)
    ensures Sane(states[k].deliveries[d]) && Sane(states[k + 1].deliveries[d])
    ensures RowStep(states[k].deliveries[d], states[k + 1].deliveries[d])
  {
    EveryStateIsGood(env, states, ops, k);
    EveryStateIsGood(env, states, ops, k + 1);
    RunMovesTable(env, states, ops, k);
  }

  // ─── a delivery changes state at most twelve times ────────────

  /** State changes of row d in the first k steps. */
  ghost function Changes(states: seq<Ledger>, d: nat, k: nat): nat
    requires k < |states|
  {
    if k == 0 then 0
    else Changes(states, d, k - 1)
         + if Has(states[k - 1], d) && Has(states[k], d)
         && states[k - 1].deliveries[d].state != states[k].deliveries[d].state
           then 1 else 0
  }

  lemma {:induction false} NoChangeBeforeBirth(env: Env, states: seq<Ledger>, ops: seq<Op>, d: nat, k: nat)
    requires IsRun(env, states, ops) && k < |states| && !Has(states[k], d)
    ensures Changes(states, d, k) == 0
  {
    if k > 0 {
      if Has(states[k - 1], d) {
        RowsStay(env, states, ops, d, k - 1, k);
        assert false;
      }
      NoChangeBeforeBirth(env, states, ops, d, k - 1);
    }
  }

  /** The changes made and the changes left never exceed twelve. */
  lemma {:induction false} LifeIsBounded(env: Env, states: seq<Ledger>, ops: seq<Op>, d: nat, k: nat)
    requires IsRun(env, states, ops) && k < |states| && Has(states[k], d)
    ensures Sane(states[k].deliveries[d])
    ensures Changes(states, d, k) + Remaining(states[k].deliveries[d]) <= 12
  {
    EveryStateIsGood(env, states, ops, k);
    if k > 0 {
      if Has(states[k - 1], d) {
        LifeIsBounded(env, states, ops, d, k - 1);
        RowMoves(env, states, ops, d, k - 1);
        RowStepFacts(states[k - 1].deliveries[d], states[k].deliveries[d]);
      } else {
        NoChangeBeforeBirth(env, states, ops, d, k - 1);
      }
    }
  }

  /** READ leads only to PROCESSED; PROCESSED, QUARANTINED and DEAD lead nowhere. */
  lemma {:induction false} EndsAreFinal(env: Env, states: seq<Ledger>, ops: seq<Op>, d: nat, i: nat, j: nat)
    requires IsRun(env, states, ops) && i <= j < |states| && Has(states[i], d)
    ensures Has(states[j], d)
    ensures var a, b := states[i].deliveries[d].state, states[j].deliveries[d].state;
            && (a.Processed? || a.Quarantined? || a.Dead? ==> states[j].deliveries[d] == states[i].deliveries[d])
            && (a.Read? ==> b.Read? || b.Processed?)
            && (!Unread(states[i].deliveries[d]) ==> !Unread(states[j].deliveries[d]))
  {
    if i < j {
      EndsAreFinal(env, states, ops, d, i, j - 1);
      RowMoves(env, states, ops, d, j - 1);
      RowStepFacts(states[j - 1].deliveries[d], states[j].deliveries[d]);
    }
  }

  // ─── and twelve is reached ────────────────────────────────────

  lemma {:induction false} ChangesOfPrefix(states: seq<Ledger>, more: seq<Ledger>, d: nat, k: nat)
    requires k < |states| <= |more| && states == more[..|states|]
    ensures Changes(states, d, k) == Changes(more, d, k)
  {
    if k > 0 {
      assert states[k] == more[k] && states[k - 1] == more[k - 1];
      ChangesOfPrefix(states, more, d, k - 1);
    }
  }

  /** A run that ends with one row in the given state after so many changes. */
  ghost predicate Ends(env: Env, states: seq<Ledger>, ops: seq<Op>, state: DeliveryState, attempts: nat, changes: nat) {
    && IsRun(env, states, ops)
    && |states[|ops|].deliveries| == 1
    && var d := states[|ops|].deliveries[0];
       && d.state == state && d.attempts == attempts && (d.lease.Some? ==> d.lease.value == 0)
       && (state.Claimed? ==> d.lease.Some?)
       && Changes(states, 0, |ops|) == changes
  }

  lemma OneMore(env: Env, states: seq<Ledger>, ops: seq<Op>, op: Op, state: DeliveryState, attempts: nat, changes: nat)
    returns (longer: seq<Ledger>, more: seq<Op>)
    requires Ends(env, states, ops, state, attempts, changes) && MovesRows(op)
    ensures longer == Extended(env, states, op) && more == ops + [op] && IsRun(env, longer, more)
    ensures longer[|more|].deliveries == DeliveriesAfter(states[|ops|], op) && |longer[|more|].deliveries| == 1
    ensures Changes(longer, 0, |more|) == changes + if longer[|more|].deliveries[0].state == state then 0 else 1
  {
    longer, more := Extended(env, states, op), ops + [op];
    ExtendRun(env, states, ops, op);
    ChangesOfPrefix(states, longer, 0, |ops|);
    StepMovesTable(env, states[|ops|], op);
  }

  lemma ClaimOnce(env: Env, states: seq<Ledger>, ops: seq<Op>, attempts: nat, changes: nat)
    returns (longer: seq<Ledger>, more: seq<Op>)
    requires Ends(env, states, ops, Accepted, attempts, changes)
    ensures Ends(env, longer, more, Claimed, attempts + 1, changes + 1)
  {
    longer, more := OneMore(env, states, ops, Claim(1, 0, "reader"), Accepted, attempts, changes);
  }

  lemma ExpireOnce(env: Env, states: seq<Ledger>, ops: seq<Op>, attempts: nat, changes: nat)
    returns (longer: seq<Ledger>, more: seq<Op>)
    requires Ends(env, states, ops, Claimed, attempts, changes) && attempts < MAX_ATTEMPTS
    ensures Ends(env, longer, more, Accepted, attempts, changes + 1)
  {
    var op := Reset(states[|ops|].deliveries[0].recipient, 1);
    longer, more := OneMore(env, states, ops, op, Claimed, attempts, changes);
  }

  lemma AdvanceOnce(env: Env, states: seq<Ledger>, ops: seq<Op>, target: DeliveryState, attempts: nat, changes: nat)
    returns (longer: seq<Ledger>, more: seq<Op>)
    requires AllowedFrom(target).Some? && Ends(env, states, ops, AllowedFrom(target).value, attempts, changes)
    ensures Ends(env, longer, more, target, attempts, changes + 1)
  {
    var d := states[|ops|].deliveries[0];
    longer, more := OneMore(env, states, ops, Ack(d.recipient, d.mid, target), d.state, attempts, changes);
  }

  lemma RunOneMore(env: Env, states: seq<Ledger>, ops: seq<Op>, op: Op, t: Ledger)
    requires IsRun(env, states, ops) && Scenes.Leads(env, states[|ops|], op, t)
    ensures IsRun(env, states + [t], ops + [op])
  {
    assert states + [t] == Extended(env, states, op);
    ExtendRun(env, states, ops, op);
  }

  /** A run without deliveries, one step longer. */
  lemma FirstLetter(env: Env, states: seq<Ledger>, ops: seq<Op>, op: Op, t: Ledger)
    requires IsRun(env, states, ops) && IsRun(env, states + [t], ops + [op]) && states[|ops|].deliveries == []
    requires |t.deliveries| == 1 && Fresh(t.deliveries[0])
    ensures Ends(env, states + [t], ops + [op], Accepted, 0, 0)
  {
    NoChangeBeforeBirth(env, states, ops, 0, |ops|);
    ChangesOfPrefix(states, states + [t], 0, |ops|);
  }

  lemma OneLetter(env: Env) returns (states: seq<Ledger>, ops: seq<Op>)
    ensures Ends(env, states, ops, Accepted, 0, 0)
  {
    var t := S.Append(Scenes.PAIR, S.Envelope(env, [], Scenes.TO_B), ["b"]);
    Scenes.PairReached(env);
    Scenes.PairLetters(env);
    Scenes.SentAhead(env, Scenes.PAIR, Scenes.TO_B);
    Scenes.FirstUnopened(env, Scenes.PAIR, Scenes.TO_B, "b");
    var before, first :| IsRun(env, before, first) && before[|first|] == Scenes.PAIR;
    RunOneMore(env, before, first, Send(Scenes.TO_B), t);
    FirstLetter(env, before, first, Send(Scenes.TO_B), t);
    states, ops := before + [t], first + [Send(Scenes.TO_B)];
  }

  lemma {:induction false} ClaimAndExpire(env: Env, n: nat) returns (states: seq<Ledger>, ops: seq<Op>)
    requires n < MAX_ATTEMPTS
    ensures Ends(env, states, ops, Accepted, n, 2 * n)
  {
    if n == 0 {
      states, ops := OneLetter(env);
    } else {
      states, ops := ClaimAndExpire(env, n - 1);
      states, ops := ClaimOnce(env, states, ops, n - 1, 2 * n - 2);
      states, ops := ExpireOnce(env, states, ops, n, 2 * n - 1);
    }
  }

  /** Five claims, four expiries and three forward steps: the bound is attained. */
  lemma TwelveChangesHappen(env: Env)
    ensures exists states, ops :: IsRun(env, states, ops) && Changes(states, 0, |ops|) == 12
  {
    var states, ops := ClaimAndExpire(env, 4);
    states, ops := ClaimOnce(env, states, ops, 4, 8);
    states, ops := AdvanceOnce(env, states, ops, Injected, 5, 9);
    states, ops := AdvanceOnce(env, states, ops, Read, 5, 10);
    states, ops := AdvanceOnce(env, states, ops, Processed, 5, 11);
  }

  // ─── claims ───────────────────────────────────────────────────

  /** Step k is a conditional update that takes row d for its caller. */
  predicate WinsAt(states: seq<Ledger>, ops: seq<Op>, d: nat, k: nat) {
    k < |ops| && k < |states| && Has(states[k], d)
    && ops[k].Claim? && ops[k].did == d + 1 && states[k].deliveries[d].state.Accepted?
  }

  /** Step k finds the lease on row d expired and takes the row back. */
  predicate ExpiresAt(states: seq<Ledger>, ops: seq<Op>, d: nat, k: nat) {
    k < |ops| && k < |states| && Has(states[k], d)
    && ops[k].Reset? && ops[k].node == states[k].deliveries[d].recipient
       && LeaseExpired(states[k].deliveries[d], ops[k].now)
  }

  /** Step k marks row d injected without a claim. */
  predicate MarksAt(states: seq<Ledger>, ops: seq<Op>, d: nat, k: nat) {
    k < |ops| && k < |states| && Has(states[k], d) && states[k].deliveries[d].state.Accepted?
    && ops[k].MarkInjected? && ops[k].node == states[k].deliveries[d].recipient
       && states[k].deliveries[d].mid in ops[k].mids
  }

  lemma OnlyExpiryReaccepts(env: Env, states: seq<Ledger>, ops: seq<Op>, d: nat, k: nat)
    requires IsRun(env, states, ops) && k < |ops| && Has(states[k], d) && Has(states[k + 1], d)
    requires !states[k].deliveries[d].state.Accepted? && states[k + 1].deliveries[d].state.Accepted?
    ensures ExpiresAt(states, ops, d, k)
  {
    assert StepAt(env, states, ops, k);
    if ops[k].Send? { S.AllOrNothing(env, states[k], ops[k].letter); }
  }

  lemma {:induction false} ReacceptedBetween(env: Env, states: seq<Ledger>, ops: seq<Op>, d: nat, i: nat, j: nat)
    requires IsRun(env, states, ops) && i <= j < |states| && Has(states[i], d) && Has(states[j], d)
    requires !states[i].deliveries[d].state.Accepted? && states[j].deliveries[d].state.Accepted?
    ensures exists k :: i <= k < j && ExpiresAt(states, ops, d, k)
  {
    RowsStay(env, states, ops, d, i, j - 1);
    if states[j - 1].deliveries[d].state.Accepted? {
      ReacceptedBetween(env, states, ops, d, i, j - 1);
    } else {
      OnlyExpiryReaccepts(env, states, ops, d, j - 1);
    }
  }

  /** Two wins of one row, by any two callers, have a lease expiry between them. */
  lemma ClaimsAreExclusive(env: Env, states: seq<Ledger>, ops: seq<Op>, d: nat, i: nat, j: nat)
    requires IsRun(env, states, ops) && i < j && WinsAt(states, ops, d, i) && WinsAt(states, ops, d, j)
    ensures exists k :: i < k < j && ExpiresAt(states, ops, d, k)
  {
    RowMoves(env, states, ops, d, i);
    assert StepAt(env, states, ops, i);
    ReacceptedBetween(env, states, ops, d, i + 1, j);
  }

  /** The step that raised the attempt count of row d to n. */
  predicate CountsAt(states: seq<Ledger>, ops: seq<Op>, d: nat, n: nat, k: nat) {
    k < |ops| && k + 1 < |states| && Has(states[k], d) && Has(states[k + 1], d)
    && states[k].deliveries[d].attempts + 1 == n == states[k + 1].deliveries[d].attempts
  }

  lemma {:induction false} AttemptsGrow(env: Env, states: seq<Ledger>, ops: seq<Op>, d: nat, i: nat, j: nat)
    requires IsRun(env, states, ops) && i <= j < |states| && Has(states[i], d)
    ensures Has(states[j], d) && states[i].deliveries[d].attempts <= states[j].deliveries[d].attempts
  {
    if i < j {
      AttemptsGrow(env, states, ops, d, i, j - 1);
      RowMoves(env, states, ops, d, j - 1);
    }
  }

  lemma AttemptsBornZero(env: Env, states: seq<Ledger>, ops: seq<Op>, d: nat, k: nat)
    requires IsRun(env, states, ops) && k < |ops| && !Has(states[k], d) && Has(states[k + 1], d)
    ensures Fresh(states[k + 1].deliveries[d])
  {
    RunMovesTable(env, states, ops, k);
  }

  lemma {:induction false} EachNumberIsCounted(env: Env, states: seq<Ledger>, ops: seq<Op>, d: nat, n: nat, k: nat)
    requires IsRun(env, states, ops) && k < |states| && Has(states[k], d) && 1 <= n <= states[k].deliveries[d].attempts
    ensures exists j: nat :: j < k && CountsAt(states, ops, d, n, j)
  {
    if Has(states[k - 1], d) {
      RowMoves(env, states, ops, d, k - 1);
      if n <= states[k - 1].deliveries[d].attempts {
        EachNumberIsCounted(env, states, ops, d, n, k - 1);
      } else {
        assert CountsAt(states, ops, d, n, k - 1);
      }
    } else {
      AttemptsBornZero(env, states, ops, d, k - 1);
      assert false;
    }
  }

  lemma CountingIsClaiming(env: Env, states: seq<Ledger>, ops: seq<Op>, d: nat, n: nat, k: nat)
    requires IsRun(env, states, ops) && CountsAt(states, ops, d, n, k)
    ensures WinsAt(states, ops, d, k) || MarksAt(states, ops, d, k)
  {
    assert StepAt(env, states, ops, k);
    if ops[k].Send? { S.AllOrNothing(env, states[k], ops[k].letter); }
  }

  /** Each claim number up to the current count was taken by exactly one step, and that step is
      one caller's win or the legacy mark. There are never more than five. */
  lemma ClaimNumbersAreUnique(env: Env, states: seq<Ledger>, ops: seq<Op>, d: nat, n: nat, k: nat)
    requires IsRun(env, states, ops) && k < |states| && Has(states[k], d) && 1 <= n <= states[k].deliveries[d].attempts
    ensures n <= MAX_ATTEMPTS
    ensures exists j: nat :: j < k && CountsAt(states, ops, d, n, j)
                             && (WinsAt(states, ops, d, j) || MarksAt(states, ops, d, j))
    ensures forall i: nat, j: nat :: CountsAt(states, ops, d, n, i) && CountsAt(states, ops, d, n, j) ==> i == j
  {
    EveryStateIsGood(env, states, ops, k);
    EachNumberIsCounted(env, states, ops, d, n, k);
    var j: nat :| j < k && CountsAt(states, ops, d, n, j);
    CountingIsClaiming(env, states, ops, d, n, j);
    forall i: nat, j: nat | CountsAt(states, ops, d, n, i) && CountsAt(states, ops, d, n, j) ensures i == j {
      if i < j { AttemptsGrow(env, states, ops, d, i + 1, j); }
      if j < i { AttemptsGrow(env, states, ops, d, j + 1, i); }
    }
  }
}
