/** The life of one delivery row, and the statements that move it. */
module Deliveries {
  import opened Tables

  /** Not yet opened: what the read-before-send gate counts. */
  predicate Open(d: Delivery) {
    d.state.Accepted? || d.state.Claimed?
  }

  /** UNREAD_STATES. */
  predicate Unread(d: Delivery) {
    Open(d) || d.state.Injected?
  }

  // ─── one row under each statement ─────────────────────────────

  predicate LeaseExpired(d: Delivery, now: int) {
    d.state.Claimed? && d.lease.Some? && d.lease.value < now
  }

  function ExpireRow(d: Delivery, now: int): Delivery {
    if LeaseExpired(d, now) then d.(state := Accepted, lease := None, claimedBy := None) else d
  }

  function BuryRow(d: Delivery): Delivery {
    if d.state.Accepted? && d.attempts >= MAX_ATTEMPTS then d.(state := Dead) else d
  }

  function ResetRow(d: Delivery, node: string, now: int): Delivery {
    if d.recipient == node then BuryRow(ExpireRow(d, now)) else d
  }

  function ClaimRow(d: Delivery, lease: int, claimant: string): Delivery {
    if d.state.Accepted?
    then d.(state := Claimed, lease := Some(lease), claimedBy := Some(claimant), attempts := d.attempts + 1)
    else d
  }

  function QuarantineRow(d: Delivery): Delivery {
    if d.state.Accepted? then d.(state := Quarantined) else d
  }

  function MarkInjectedRow(d: Delivery, node: string, mids: seq<string>): Delivery {
    if d.recipient == node && d.mid in mids && d.state.Accepted?
    then d.(state := Injected, attempts := d.attempts + 1) else d
  }

  function InjectRow(d: Delivery, did: nat, node: string, dids: seq<nat>): Delivery {
    if d.recipient == node && d.state.Claimed? && did in dids then d.(state := Injected) else d
  }

  /** The target a caller may acknowledge, and the one state it may come from. */
  function AllowedFrom(target: DeliveryState): Option<DeliveryState> {
    match target
    case Injected => Some(Claimed)
    case Read => Some(Injected)
    case Processed => Some(Read)
    case _ => None
  }

  predicate IsRow(d: Delivery, node: string, mid: string) {
    d.recipient == node && d.mid == mid
  }

  function AckRow(d: Delivery, node: string, mid: string, target: DeliveryState): Delivery {
    if IsRow(d, node, mid) && AllowedFrom(target) == Some(d.state) then d.(state := target) else d
  }

  function CatchUpRow(d: Delivery, node: string, ms: seq<Message>, tac: string, ids: Option<seq<string>>): Delivery {
    if CatchUpMatches(d, node, ms, tac, ids) then d.(state := Injected) else d
  }

  predicate CatchUpMatches(d: Delivery, node: string, ms: seq<Message>, tac: string, ids: Option<seq<string>>) {
    && d.recipient == node && Open(d)
    && InTac(ms, d.mid, tac)
    && (ids.Some? ==> d.mid in ids.value)
  }

  predicate InTac(ms: seq<Message>, mid: string, tac: string) {
    var m := Find(ms, mid);
    m.Some? && m.value.tac == Some(tac)
  }

  // ─── the whole table under a pointwise statement ──────────────

  /** Apply f to (row id, row) everywhere. */
  function MapRows(ds: seq<Delivery>, f: (nat, Delivery) -> Delivery): (r: seq<Delivery>)
    ensures |r| == |ds|
    ensures forall i :: 0 <= i < |ds| ==> r[i] == f(i + 1, ds[i])
  {
    seq(|ds|, i requires 0 <= i < |ds| => f(i + 1, ds[i]))
  }

  function Reset(ds: seq<Delivery>, node: string, now: int): seq<Delivery> {
    MapRows(ds, (i, d) => ResetRow(d, node, now))
  }

  function Claim(ds: seq<Delivery>, did: nat, lease: int, claimant: string): seq<Delivery> {
    MapRows(ds, (i, d) => if i == did then ClaimRow(d, lease, claimant) else d)
  }

  function Quarantine(ds: seq<Delivery>, did: nat): seq<Delivery> {
    MapRows(ds, (i, d) => if i == did then QuarantineRow(d) else d)
  }

  function MarkInjected(ds: seq<Delivery>, node: string, mids: seq<string>): seq<Delivery> {
    MapRows(ds, (i, d) => MarkInjectedRow(d, node, mids))
  }

  function Inject(ds: seq<Delivery>, node: string, dids: seq<nat>): seq<Delivery> {
    MapRows(ds, (i: nat, d: Delivery) => InjectRow(d, i, node, dids))
  }

  function Ack(ds: seq<Delivery>, node: string, mid: string, target: DeliveryState): seq<Delivery> {
    MapRows(ds, (i, d) => AckRow(d, node, mid, target))
  }

  function CatchUp(ds: seq<Delivery>, node: string, ms: seq<Message>, tac: string,
        ids: Option<seq<string>>): seq<Delivery>
  {
    MapRows(ds, (i, d) => CatchUpRow(d, node, ms, tac, ids))
  }

  // ─── which rows a statement changes, and how ──────────────────

  /** Reset: claims of this node whose lease is over go back, or end after five attempts; and what lies
      ACCEPTED after five attempts ends. */
  lemma ResetExactly(ds: seq<Delivery>, node: string, now: int, i: nat)
    requires i < |ds|
    ensures var d, e := ds[i], Reset(ds, node, now)[i];
            if d.recipient == node && d.state.Claimed? && d.lease.Some? && d.lease.value < now then
              && e.lease.None? && e.claimedBy.None? && e == d.(state := e.state, lease := None, claimedBy := None)
              && (if d.attempts < 5 then e.state.Accepted? else e.state.Dead?)
            else if d.recipient == node && d.state.Accepted? && d.attempts >= 5 then e == d.(state := Dead)
            else e == d
  {
  }

  /** The statements for one row id change that row if it is ACCEPTED, and nothing else. */
  lemma RowStatementsExactly(ds: seq<Delivery>, did: nat, lease: int, claimant: string, i: nat)
    requires i < |ds|
    ensures Claim(ds, did, lease, claimant)[i] ==
              if i + 1 == did && ds[i].state.Accepted?
              then Delivery(ds[i].mid, ds[i].recipient, Claimed, ds[i].attempts + 1, Some(lease), Some(claimant))
              else ds[i]
    ensures Quarantine(ds, did)[i] ==
            if i + 1 == did && ds[i].state.Accepted? then ds[i].(state := Quarantined) else ds[i]
  {
  }

  /** The statements for one node change only its rows: those of these messages that are ACCEPTED,
      those of these row ids that are CLAIMED, the one acknowledged from the state before the target,
      and those of this tac (and these messages) that are not opened yet. */
  lemma NodeStatementsExactly(ds: seq<Delivery>, node: string, ms: seq<Message>, i: nat)
    requires i < |ds|
    ensures forall mids {:trigger MarkInjected(ds, node, mids)} ::
              MarkInjected(ds, node, mids)[i] ==
                if ds[i].recipient == node && ds[i].state.Accepted? && ds[i].mid in mids
                then ds[i].(state := Injected, attempts := ds[i].attempts + 1) else ds[i]
    ensures forall dids {:trigger Inject(ds, node, dids)} ::
              Inject(ds, node, dids)[i] ==
                if ds[i].recipient == node && ds[i].state.Claimed? && i + 1 in dids
                then ds[i].(state := Injected) else ds[i]
    ensures forall mid, target {:trigger Ack(ds, node, mid, target)} ::
              Ack(ds, node, mid, target)[i] ==
                if ds[i].recipient == node && ds[i].mid == mid
                   && ((target.Injected? && ds[i].state.Claimed?) || (target.Read? && ds[i].state.Injected?)
                       || (target.Processed? && ds[i].state.Read?))
                then ds[i].(state := target) else ds[i]
    ensures forall tac, ids: Option<seq<string>> {:trigger CatchUp(ds, node, ms, tac, ids)} ::
              CatchUp(ds, node, ms, tac, ids)[i] ==
                if ds[i].recipient == node && (ds[i].state.Accepted? || ds[i].state.Claimed?)
                   && Find(ms, ds[i].mid).Some? && Find(ms, ds[i].mid).value.tac == Some(tac)
                   && (ids.None? || ds[i].mid in ids.value)
                then ds[i].(state := Injected) else ds[i]
  {
  }

  // ─── the only moves any statement makes ───────────────────────

  predicate Expires(d: Delivery, e: Delivery) {
    && d.state.Claimed?
    && e == d.(state := if d.attempts >= MAX_ATTEMPTS then Dead else Accepted, lease := None, claimedBy := None)
  }

  predicate Wins(d: Delivery, e: Delivery) {
    && d.state.Accepted?
    && e.lease.Some? && e.claimedBy.Some?
    && e == d.(state := Claimed, lease := e.lease, claimedBy := e.claimedBy, attempts := d.attempts + 1)
  }

  predicate Marked(d: Delivery, e: Delivery) {
    d.state.Accepted? && e == d.(state := Injected, attempts := d.attempts + 1)
  }

  predicate Advances(d: Delivery, e: Delivery) {
    || (Open(d) && e == d.(state := Injected))
    || (d.state.Injected? && e == d.(state := Read))
    || (d.state.Read? && e == d.(state := Processed))
  }

  predicate Leaves(d: Delivery, e: Delivery) {
    d.state.Accepted? && (e == d.(state := Quarantined) || (d.attempts >= MAX_ATTEMPTS && e == d.(state := Dead)))
  }

  /** What one committed statement may do to one row. */
  predicate RowStep(d: Delivery, e: Delivery) {
    e == d || Expires(d, e) || Wins(d, e) || Marked(d, e) || Advances(d, e) || Leaves(d, e)
  }

  predicate Fresh(d: Delivery) {
    d.state.Accepted? && d.attempts == 0 && d.lease.None? && d.claimedBy.None?
  }

  /** What one committed statement may do to the table. */
  ghost predicate TableStep(ds: seq<Delivery>, es: seq<Delivery>) {
    && |ds| <= |es|
    && (forall i :: 0 <= i < |ds| ==> RowStep(ds[i], es[i]))
    && (forall i :: |ds| <= i < |es| ==> Fresh(es[i]))
  }

  lemma StatementsAreTableSteps(ds: seq<Delivery>)
    ensures forall node, now {:trigger Reset(ds, node, now)} :: TableStep(ds, Reset(ds, node, now))
    ensures forall i, lease, who {:trigger Claim(ds, i, lease, who)} :: TableStep(ds, Claim(ds, i, lease, who))
    ensures forall i {:trigger Quarantine(ds, i)} :: TableStep(ds, Quarantine(ds, i))
    ensures forall node, mids {:trigger MarkInjected(ds, node, mids)} :: TableStep(ds, MarkInjected(ds, node, mids))
    ensures forall node, dids {:trigger Inject(ds, node, dids)} :: TableStep(ds, Inject(ds, node, dids))
    ensures forall node, mid, t {:trigger Ack(ds, node, mid, t)} :: TableStep(ds, Ack(ds, node, mid, t))
    ensures forall node, ms, tac, ids {:trigger CatchUp(ds, node, ms, tac, ids)} ::
              TableStep(ds, CatchUp(ds, node, ms, tac, ids))
  {
  }

  // ─── what every reachable row satisfies ───────────────────────

  predicate Sane(d: Delivery) {
    && d.attempts <= MAX_ATTEMPTS
    && (d.state.Accepted? ==> d.attempts < MAX_ATTEMPTS && d.lease.None? && d.claimedBy.None?)
    && (d.state.Claimed? ==> 1 <= d.attempts && d.lease.Some? && d.claimedBy.Some?)
  }

  /** State changes this row can still make. */
  function Remaining(d: Delivery): nat
    requires Sane(d)
  {
    match d.state
    case Accepted => 12 - 2 * d.attempts
    case Claimed => 13 - 2 * d.attempts
    case Injected => 2
    case Read => 1
    case _ => 0
  }

  /** One step keeps a row sane, never reopens it, and either leaves it exactly as it was or
      changes its state and uses up at least one of the changes it had left. */
  lemma RowStepFacts(d: Delivery, e: Delivery)
    requires Sane(d) && RowStep(d, e)
    ensures Sane(e) && e.mid == d.mid && e.recipient == d.recipient
    ensures e == d || (e.state != d.state && Remaining(e) < Remaining(d))
    ensures Open(e) ==> Open(d)
    ensures Unread(e) ==> Unread(d)
    ensures d.state.Read? ==> e.state.Read? || e.state.Processed?
    ensures d.state in {Processed, Quarantined, Dead} ==> e == d
  {
  }
}
