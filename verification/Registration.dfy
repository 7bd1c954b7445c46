/** `bus_register`: one BEGIN IMMEDIATE transaction that checks, then writes. */
module Registration {
  import opened Tables
  import opened Identifiers

  /** An argument that only a literal true or false should set: omitted, true, false, or any other
      value that Python takes for true. */
  datatype Flag = Unset | On | Off | Junk

  /** "" stands for an omitted or empty string; the code treats both as false. */
  datatype Registration = Registration(
    node: string,
    program: bool,
    pubkey: Option<string>,
    adapter: string,
    target: string,
    host: string,
    takeRoute: Flag,
    autoEnter: Flag,
    verified: Flag,
    revokeRoute: Flag,
    revokeAdapter: string,
    revokeTarget: string,
    revokeHost: string,
    now: int
  )

  datatype Refusal =
    | UnsafeName
    | AutoEnterNotBoolean
    | RemovedNode
    | NewerInstance
    | ProgramWithRoute
    | ProofWithoutRoute
    | TakeWithoutRoute
    | AutoEnterWithoutRoute
    | IncompleteRejectedRoute
    | RevokeWithRoute
    | RejectedRouteWithoutRevoke
    | AgentCannotBecomeProgram
    | NeedsProof
    | RouteOwned

  /** Where a terminal route points. */
  datatype Place = Place(adapter: string, target: string, host: string)

  function PlaceOf(r: Route): Place {
    Place(r.adapter, r.target, r.host)
  }

  predicate HasRoute(a: Registration) {
    a.adapter != "" && a.target != "" && a.host != ""
  }

  function Asked(a: Registration): Place {
    Place(a.adapter, a.target, a.host)
  }

  /** The stored mark is `1 if route_verified else 0`, while every check asks for a literal true.
      The daemon passes `is True`, so Junk reaches the mark only through a direct call. */
  predicate MarksProof(a: Registration) {
    a.verified == On || a.verified == Junk
  }

  predicate SameActive(s: Ledger, a: Registration) {
    a.node in s.routes && s.routes[a.node].active && PlaceOf(s.routes[a.node]) == Asked(a)
  }

  /** The other nodes holding an active route on the same pane of the same installation. */
  function Owners(s: Ledger, a: Registration): set<string> {
    set n | n in s.routes && n != a.node && s.routes[n].active
            && s.routes[n].host == a.host && s.routes[n].target == a.target
  }

  /** The checks on the arguments alone, once they name a usable node. */
  function BadArguments(a: Registration): Option<Refusal> {
    if a.program && (a.adapter != "" || a.target != "" || a.takeRoute == On || a.revokeRoute == On || a.verified == On)
    then Some(ProgramWithRoute)
    else if a.verified == On && !HasRoute(a) then Some(ProofWithoutRoute)
    else if a.takeRoute == On && !HasRoute(a) then Some(TakeWithoutRoute)
    else if a.autoEnter == On && !HasRoute(a) then Some(AutoEnterWithoutRoute)
    else if a.revokeRoute == On && (a.revokeAdapter == "" || a.revokeTarget == "" || a.revokeHost == "")
    then Some(IncompleteRejectedRoute)
    else if a.revokeRoute == On && (a.adapter != "" || a.target != "" || a.host != "" || a.takeRoute == On)
    then Some(RevokeWithRoute)
    else if a.revokeRoute != On && (a.revokeAdapter != "" || a.revokeTarget != "" || a.revokeHost != "")
    then Some(RejectedRouteWithoutRevoke)
    else None
  }

  /** The checks behind BEGIN IMMEDIATE, which read what the transaction then writes. */
  function RefusedInside(s: Ledger, a: Registration): Option<Refusal> {
    if a.program && a.node in s.nodes && !s.nodes[a.node].isProgram then Some(AgentCannotBecomeProgram)
    else if HasRoute(a) && a.node in s.routes && s.routes[a.node].verified && a.verified != On && !SameActive(s, a)
    then Some(NeedsProof)
    else if HasRoute(a) && Owners(s, a) != {} && a.takeRoute != On then Some(RouteOwned)
    else None
  }

  /** The checks before BEGIN IMMEDIATE. */
  function RefusedOutside(s: Ledger, a: Registration): Option<Refusal> {
    if !IsSafeNodeId(a.node) then Some(UnsafeName)
    else if a.autoEnter == Junk then Some(AutoEnterNotBoolean)
    else if a.node in s.removed then Some(RemovedNode)
    else if a.node in s.nodes && s.nodes[a.node].bootAt > a.now then Some(NewerInstance)
    else BadArguments(a)
  }

  /** The first check that fails, in the order the code makes them. */
  function Refused(s: Ledger, a: Registration): Option<Refusal> {
    if RefusedOutside(s, a).Some? then RefusedOutside(s, a) else RefusedInside(s, a)
  }

  function NodeAfter(s: Ledger, a: Registration): Node {
    if a.node in s.nodes then
      var n := s.nodes[a.node];
      n.(isProgram := a.program, bootAt := a.now, pubkey := if n.pubkey.Some? then n.pubkey else a.pubkey)
    else Node(a.program, a.pubkey, a.now, None)
  }

  /** Omitting auto_enter keeps the setting of the same active route and of nothing else. */
  predicate AutoEnterAfter(s: Ledger, a: Registration) {
    a.autoEnter == On || (a.autoEnter == Unset && SameActive(s, a) && s.routes[a.node].autoEnter)
  }

  function Revoked(routes: map<string, Route>, victims: set<string>): (r: map<string, Route>)
    ensures r.Keys == routes.Keys
  {
    map n | n in routes :: if n in victims then routes[n].(active := false) else routes[n]
  }

  function RoutesAfter(s: Ledger, a: Registration): map<string, Route> {
    if HasRoute(a) then
      var proven := MarksProof(a) || (a.node in s.routes && s.routes[a.node].verified);
      Revoked(s.routes, Owners(s, a))[a.node := Route(a.adapter, a.target, a.host, proven, AutoEnterAfter(s, a), true)]
    else
      var reclaimed := if a.program && a.adapter == "" then Revoked(s.routes, {a.node}) else s.routes;
      if a.autoEnter == Off && a.node in reclaimed && reclaimed[a.node].active
      then reclaimed[a.node := reclaimed[a.node].(autoEnter := false)]
      else reclaimed
  }

  /** The transaction: its own checks, then the node row and the routes. */
  function Transact(s: Ledger, a: Registration): Ledger {
    if RefusedInside(s, a).Some? then s
    else s.(nodes := s.nodes[a.node := NodeAfter(s, a)], routes := RoutesAfter(s, a))
  }

  function Register(s: Ledger, a: Registration): Ledger {
    if RefusedOutside(s, a).Some? then s else Transact(s, a)
  }

  // ─── what one registration keeps ──────────────────────────────

  /** At most one active route per pane, from the logic alone. */
  ghost predicate ExclusiveRoutes(routes: map<string, Route>) {
    forall m, n :: m in routes && n in routes && m != n && routes[m].active && routes[n].active
                   ==> routes[m].host != routes[n].host || routes[m].target != routes[n].target
  }

  /** A program node owns no route row, and every route belongs to a known node. */
  ghost predicate RoutesHaveAgents(s: Ledger) {
    forall n :: n in s.routes ==> n in s.nodes && !s.nodes[n].isProgram
  }

  lemma TransactKeepsExclusive(s: Ledger, a: Registration)
    requires ExclusiveRoutes(s.routes)
    ensures ExclusiveRoutes(Transact(s, a).routes)
  {
  }

  lemma TransactKeepsAgents(s: Ledger, a: Registration)
    requires RoutesHaveAgents(s) && BadArguments(a).None?
    ensures RoutesHaveAgents(Transact(s, a))
  {
  }

  lemma RegisterKeepsExclusive(s: Ledger, a: Registration)
    requires ExclusiveRoutes(s.routes)
    ensures ExclusiveRoutes(Register(s, a).routes)
  {
    TransactKeepsExclusive(s, a);
  }

  lemma RegisterKeepsAgents(s: Ledger, a: Registration)
    requires RoutesHaveAgents(s)
    ensures RoutesHaveAgents(Register(s, a))
  {
    if RefusedOutside(s, a).None? { TransactKeepsAgents(s, a); }
  }

  /** A registration drops no node and turns no agent into a program. */
  lemma TransactKeepsNodes(s: Ledger, a: Registration)
    ensures s.nodes.Keys <= Transact(s, a).nodes.Keys
    ensures forall n :: n in s.nodes && !s.nodes[n].isProgram ==> !Transact(s, a).nodes[n].isProgram
  {
  }

  lemma RegisterKeepsNodes(s: Ledger, a: Registration)
    ensures s.nodes.Keys <= Register(s, a).nodes.Keys
    ensures forall n :: n in s.nodes && !s.nodes[n].isProgram ==> !Register(s, a).nodes[n].isProgram
  {
    TransactKeepsNodes(s, a);
  }

  /** What a registration may do to somebody else's route: nothing, or, with a literal
      take_route and only on the same pane, revoke it and leave the rest of the row alone. */
  lemma OnlyConsentDisplaces(s: Ledger, a: Registration, n: string)
    requires n in s.routes && n != a.node
    ensures n in Register(s, a).routes
    ensures var after := Register(s, a).routes[n];
            && (after != s.routes[n] <==>
                  && Refused(s, a).None? && a.adapter != "" && a.target != "" && a.host != ""
                  && s.routes[n].active && s.routes[n].host == a.host && s.routes[n].target == a.target)
            && (after != s.routes[n] ==> a.takeRoute == On && after == s.routes[n].(active := false))
  {
  }
}
