/** Proof and consent stay attached to the route they were given for, in runs where each call is
    one step. */
module RouteHistory {
  import opened Tables
  import opened BusRuns
  import opened Registration
  import R = Registration

  /** An accepted registration that writes the proof mark. */
  predicate Marks(s: Ledger, op: Op, node: string) {
    op.Register? && op.reg.node == node && Refused(s, op.reg).None? && HasRoute(op.reg) && MarksProof(op.reg)
  }

  predicate MarksAt(states: seq<Ledger>, ops: seq<Op>, node: string, k: nat) {
    k < |ops| && k < |states| && Marks(states[k], ops[k], node)
  }

  /** The last marking registration of this node named this place. */
  ghost predicate LastMark(states: seq<Ledger>, ops: seq<Op>, node: string, place: Place, m: nat) {
    exists k: nat :: k < m && MarksAt(states, ops, node, k) && Asked(ops[k].reg) == place
                     && forall j: nat :: k < j < m ==> !MarksAt(states, ops, node, j)
  }

  /** What one step can do to the proof mark of a node's route. */
  lemma StepAndProof(env: Env, s: Ledger, op: Op, node: string)
    requires node in Step(env, s, op).routes && Step(env, s, op).routes[node].verified
    ensures var place := PlaceOf(Step(env, s, op).routes[node]);
            if Marks(s, op, node) then Asked(op.reg) == place
            else node in s.routes && s.routes[node].verified && PlaceOf(s.routes[node]) == place
  {
    if !op.Register? { OtherStepsLeaveRoutes(env, s, op); }
  }

  /** A marked row still names the place of the last registration that marked it, in every
      reachable state. */
  lemma {:induction false} MarkIsCurrent(env: Env, states: seq<Ledger>, ops: seq<Op>, node: string, m: nat)
    requires IsRun(env, states, ops) && m < |states|
    requires node in states[m].routes && states[m].routes[node].verified
    ensures LastMark(states, ops, node, PlaceOf(states[m].routes[node]), m)
  {
    var place := PlaceOf(states[m].routes[node]);
    assert m > 0;
    assert StepAt(env, states, ops, m - 1);
    StepAndProof(env, states[m - 1], ops[m - 1], node);
    if MarksAt(states, ops, node, m - 1) {
      assert Asked(ops[m - 1].reg) == place;
    } else {
      MarkIsCurrent(env, states, ops, node, m - 1);
      var k: nat :| k < m - 1 && MarksAt(states, ops, node, k) && Asked(ops[k].reg) == place
                    && forall j: nat :: k < j < m - 1 ==> !MarksAt(states, ops, node, j);
    }
  }

  /** A marked row stays marked, and a marking registration marks: so in every reachable state a row
      is marked exactly when some registration marked it. */
  lemma {:induction false} MarkedExactly(env: Env, states: seq<Ledger>, ops: seq<Op>, node: string, m: nat)
    requires IsRun(env, states, ops) && m < |states|
    ensures node in states[m].routes && states[m].routes[node].verified
            <==> exists k: nat :: k < m && MarksAt(states, ops, node, k)
  {
    if m > 0 {
      MarkedExactly(env, states, ops, node, m - 1);
      assert StepAt(env, states, ops, m - 1);
      StepMarks(env, states[m - 1], ops[m - 1], node);
      assert MarksAt(states, ops, node, m - 1) <==> Marks(states[m - 1], ops[m - 1], node);
      forall k: nat | k < m && MarksAt(states, ops, node, k) ensures k < m - 1 || MarksAt(states, ops, node, m - 1) {
      }
    }
  }

  lemma StepMarks(env: Env, s: Ledger, op: Op, node: string)
    ensures node in Step(env, s, op).routes && Step(env, s, op).routes[node].verified
            <==> Marks(s, op, node) || (node in s.routes && s.routes[node].verified)
  {
    if !op.Register? { OtherStepsLeaveRoutes(env, s, op); }
  }

  /** An accepted registration with a whole route. */
  predicate Routes(s: Ledger, op: Op, node: string) {
    op.Register? && op.reg.node == node && Refused(s, op.reg).None?
    && op.reg.adapter != "" && op.reg.target != "" && op.reg.host != ""
  }

  predicate RoutesAt(states: seq<Ledger>, ops: seq<Op>, node: string, k: nat) {
    k < |ops| && k < |states| && Routes(states[k], ops[k], node)
  }

  ghost predicate LastRoute(states: seq<Ledger>, ops: seq<Op>, node: string, k: nat, m: nat) {
    k < m && RoutesAt(states, ops, node, k) && forall j: nat :: k < j < m ==> !RoutesAt(states, ops, node, j)
  }

  /** A route row was registered, and names the place of the last registration with a whole route. */
  lemma {:induction false} PlaceIsLastRoute(env: Env, states: seq<Ledger>, ops: seq<Op>, node: string, m: nat)
      returns (k: nat)
    requires IsRun(env, states, ops) && m < |states| && node in states[m].routes
    ensures LastRoute(states, ops, node, k, m)
    ensures states[m].routes[node].adapter == ops[k].reg.adapter && states[m].routes[node].target == ops[k].reg.target
    ensures states[m].routes[node].host == ops[k].reg.host
  {
    assert StepAt(env, states, ops, m - 1);
    StepAndPlace(env, states[m - 1], ops[m - 1], node);
    if RoutesAt(states, ops, node, m - 1) {
      k := m - 1;
    } else {
      k := PlaceIsLastRoute(env, states, ops, node, m - 1);
    }
  }

  /** And such a registration leaves a row for good. */
  lemma {:induction false} RoutedHasRow(env: Env, states: seq<Ledger>, ops: seq<Op>, node: string, k: nat, m: nat)
    requires IsRun(env, states, ops) && k < m < |states| && RoutesAt(states, ops, node, k)
    ensures node in states[m].routes
  {
    assert StepAt(env, states, ops, m - 1);
    if k < m - 1 { RoutedHasRow(env, states, ops, node, k, m - 1); }
    StepAndPlace(env, states[m - 1], ops[m - 1], node);
  }

  lemma StepAndPlace(env: Env, s: Ledger, op: Op, node: string)
    ensures var t := Step(env, s, op);
            && (node in t.routes <==> Routes(s, op, node) || node in s.routes)
            && (Routes(s, op, node) ==>
                  && t.routes[node].adapter == op.reg.adapter && t.routes[node].target == op.reg.target
                  && t.routes[node].host == op.reg.host && t.routes[node].active)
            && (!Routes(s, op, node) && node in s.routes ==>
                  && t.routes[node].adapter == s.routes[node].adapter && t.routes[node].target == s.routes[node].target
                  && t.routes[node].host == s.routes[node].host)
  {
    if !op.Register? { OtherStepsLeaveRoutes(env, s, op); }
  }

  predicate ProvesAt(states: seq<Ledger>, ops: seq<Op>, node: string, k: nat) {
    MarksAt(states, ops, node, k) && ops[k].reg.verified == On
  }

  /** The last registration of this node that came with proof named this place. */
  ghost predicate LastProof(states: seq<Ledger>, ops: seq<Op>, node: string, place: Place, m: nat) {
    exists k: nat :: k < m && ProvesAt(states, ops, node, k) && Asked(ops[k].reg) == place
                     && forall j: nat :: k < j < m ==> !ProvesAt(states, ops, node, j)
  }

  /** Every registration gives a literal boolean or nothing as its proof, as the daemon does. */
  ghost predicate LiteralProofs(ops: seq<Op>) {
    forall k :: 0 <= k < |ops| && ops[k].Register? ==> ops[k].reg.verified != Junk
  }

  /** So behind the daemon the mark is proof: in every reachable state a verified row names the
      place that was last proven. */
  lemma ProofIsCurrent(env: Env, states: seq<Ledger>, ops: seq<Op>, node: string, m: nat)
    requires IsRun(env, states, ops) && m < |states| && LiteralProofs(ops)
    requires node in states[m].routes && states[m].routes[node].verified
    ensures LastProof(states, ops, node, PlaceOf(states[m].routes[node]), m)
  {
    MarkIsCurrent(env, states, ops, node, m);
    var place := PlaceOf(states[m].routes[node]);
    var k: nat :| k < m && MarksAt(states, ops, node, k) && Asked(ops[k].reg) == place
                  && forall j: nat :: k < j < m ==> !MarksAt(states, ops, node, j);
    assert ProvesAt(states, ops, node, k);
  }

  /** A direct call can mark a place that was never proven: exactly when it passes a truthy value
      other than True for a complete route and is not refused. */
  lemma MarkWithoutProof(s: Ledger, a: Registration)
    requires !(a.node in s.routes && s.routes[a.node].verified)
    ensures a.node in R.Register(s, a).routes && R.Register(s, a).routes[a.node].verified && a.verified != On
            <==> Refused(s, a).None? && HasRoute(a) && a.verified == Junk
  {
  }

  predicate Consent(s: Ledger, op: Op, node: string, place: Place) {
    op.Register? && op.reg.node == node && Refused(s, op.reg).None? && op.reg.autoEnter == On && Asked(op.reg) == place
  }

  /** The step moves the route, turns auto-enter off, or takes the pane away. */
  predicate Withdrawal(s: Ledger, op: Op, node: string, place: Place) {
    op.Register? && Refused(s, op.reg).None?
    && var a := op.reg;
       || (a.node == node && HasRoute(a) && Asked(a) != place)
       || (a.node == node && a.autoEnter == Off)
       || (a.node != node && HasRoute(a) && a.host == place.host && a.target == place.target)
  }

  predicate ConsentsAt(states: seq<Ledger>, ops: seq<Op>, node: string, place: Place, k: nat) {
    k < |ops| && k < |states| && Consent(states[k], ops[k], node, place)
  }

  predicate WithdrawsAt(states: seq<Ledger>, ops: seq<Op>, node: string, place: Place, k: nat) {
    k < |ops| && k < |states| && Withdrawal(states[k], ops[k], node, place)
  }

  ghost predicate StandingConsent(states: seq<Ledger>, ops: seq<Op>, node: string, place: Place, m: nat) {
    exists k: nat :: k < m && ConsentsAt(states, ops, node, place, k)
                     && forall j: nat :: k < j < m ==> !WithdrawsAt(states, ops, node, place, j)
  }

  predicate Entering(s: Ledger, node: string) {
    node in s.routes && s.routes[node].active && s.routes[node].autoEnter
  }

  lemma StepAndConsent(env: Env, s: Ledger, op: Op, node: string)
    requires Entering(Step(env, s, op), node)
    ensures var place := PlaceOf(Step(env, s, op).routes[node]);
            || Consent(s, op, node, place)
            || (Entering(s, node) && PlaceOf(s.routes[node]) == place && !Withdrawal(s, op, node, place))
  {
    if !op.Register? { OtherStepsLeaveRoutes(env, s, op); }
  }

  /** Whenever the bell may press Enter for a node, that node was registered with an explicit
      "on" for exactly this place, and nothing has moved, revoked or switched it off since. */
  lemma {:induction false} ConsentStands(env: Env, states: seq<Ledger>, ops: seq<Op>, node: string, m: nat)
    requires IsRun(env, states, ops) && m < |states| && Entering(states[m], node)
    ensures StandingConsent(states, ops, node, PlaceOf(states[m].routes[node]), m)
  {
    var place := PlaceOf(states[m].routes[node]);
    assert m > 0;
    assert StepAt(env, states, ops, m - 1);
    StepAndConsent(env, states[m - 1], ops[m - 1], node);
    if ConsentsAt(states, ops, node, place, m - 1) {
    } else {
      ConsentStands(env, states, ops, node, m - 1);
      var k: nat :| k < m - 1 && ConsentsAt(states, ops, node, place, k)
                    && forall j: nat :: k < j < m - 1 ==> !WithdrawsAt(states, ops, node, place, j);
    }
  }

  lemma ConsentEnters(env: Env, s: Ledger, op: Op, node: string, place: Place)
    requires Consent(s, op, node, place)
    ensures Entering(Step(env, s, op), node) && PlaceOf(Step(env, s, op).routes[node]) == place
  {
  }

  lemma EnteringStays(env: Env, s: Ledger, op: Op, node: string, place: Place)
    requires Entering(s, node) && PlaceOf(s.routes[node]) == place && !Withdrawal(s, op, node, place)
    requires RoutesHaveAgents(s)
    ensures Entering(Step(env, s, op), node) && PlaceOf(Step(env, s, op).routes[node]) == place
  {
    if !op.Register? { OtherStepsLeaveRoutes(env, s, op); }
  }

  /** And the other way round: an explicit "on" holds for its place until something moves, revokes
      or switches it off. */
  lemma {:induction false} ConsentIsHeeded(env: Env, states: seq<Ledger>, ops: seq<Op>, node: string, place: Place,
        m: nat)
    requires IsRun(env, states, ops) && m < |states| && StandingConsent(states, ops, node, place, m)
    ensures Entering(states[m], node) && PlaceOf(states[m].routes[node]) == place
  {
    var k: nat :| k < m && ConsentsAt(states, ops, node, place, k)
                  && forall j: nat :: k < j < m ==> !WithdrawsAt(states, ops, node, place, j);
    assert StepAt(env, states, ops, m - 1);
    if k == m - 1 {
      ConsentEnters(env, states[m - 1], ops[m - 1], node, place);
    } else {
      assert StandingConsent(states, ops, node, place, m - 1);
      ConsentIsHeeded(env, states, ops, node, place, m - 1);
      assert !WithdrawsAt(states, ops, node, place, m - 1);
      EveryStateIsGood(env, states, ops, m - 1);
      EnteringStays(env, states[m - 1], ops[m - 1], node, place);
    }
  }

  /** In every reachable state at most one active route exists per pane, a program node owns no
      route row, and so the branch that reclaims a program's old route never finds one. */
  lemma RoutesAreExclusive(env: Env, states: seq<Ledger>, ops: seq<Op>, m: nat)
    requires IsRun(env, states, ops) && m < |states|
    ensures ExclusiveRoutes(states[m].routes)
    ensures forall n :: n in states[m].routes ==> n in states[m].nodes && !states[m].nodes[n].isProgram
    ensures forall a: Registration :: a.program && Refused(states[m], a).None? ==> a.node !in states[m].routes
  {
    EveryStateIsGood(env, states, ops, m);
  }
}
