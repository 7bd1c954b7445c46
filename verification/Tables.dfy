/** The rows of the ledger as values. A `Ledger` is one committed state of the database. */
module Tables {

  datatype Option<+T> = None | Some(value: T)

  /** Nothing, an empty string, a text that is no timestamp, or an instant. The first two mean that
      a message never expires, but a resend tells them apart. */
  datatype Expiry = NoExpiry | EmptyExpiry | Malformed | At(time: int)

  datatype DeliveryState = Accepted | Claimed | Injected | Read | Processed | Quarantined | Dead

  /** One row per (message, recipient). The row id is the position in the table plus one:
      the id column is AUTOINCREMENT and no statement deletes a delivery. */
  datatype Delivery = Delivery(
    mid: string,
    recipient: string,
    state: DeliveryState,
    attempts: nat,
    lease: Option<int>,
    claimedBy: Option<string>
  )

  datatype Message = Message(
    id: string,
    sender: string,
    subject: string,
    body: string,
    bodyHash: string,
    replyTo: Option<string>,
    thread: string,
    schema: string,
    expires: Expiry,
    priority: string,
    tac: Option<string>,
    broadcast: bool
  )

  datatype Node = Node(isProgram: bool, pubkey: Option<string>, bootAt: int, snoozeUntil: Option<int>)

  datatype Route = Route(adapter: string, target: string, host: string, verified: bool, autoEnter: bool, active: bool)

  datatype Closing = Closing(time: int, summary: Option<string>, actor: Option<string>)

  datatype Tac = Tac(name: string, key: string, description: Option<string>, closed: Option<Closing>)

  datatype RemovalMode = Soft | Purge | Restore

  datatype Removal = Removal(node: string, mode: RemovalMode)

  datatype Rotation = Rotation(node: string, oldKey: Option<string>, newKey: string)

  datatype NameChange = NameChange(tac: string, oldName: string, newName: string)

  datatype Ledger = Ledger(
    nodes: map<string, Node>,
    removed: set<string>,
    messages: seq<Message>,
    deliveries: seq<Delivery>,
    routes: map<string, Route>,
    tacs: map<string, Tac>,
    members: set<(string, string)>,
    removals: seq<Removal>,
    rotations: seq<Rotation>,
    nameChanges: seq<NameChange>
  )

  /** The ledger SCHEMA creates. */
  const EMPTY := Ledger(map[], {}, [], [], map[], map[], {}, [], [], [])

  /** What the library supplies: a digest, Unicode folding, and the rules for a usable name. */
  datatype Env = Env(hash: string -> string, strip: string -> string, fold: string -> string, nameOk: string -> bool)

  const PROTOCOL_VERSION := "tabus.v1"
  const MAX_ATTEMPTS: nat := 5

  /** SELECT ... FROM messages WHERE id=?, which matches at most one row. */
  function Find(ms: seq<Message>, id: string): (r: Option<Message>)
    ensures r.Some? ==> r.value in ms && r.value.id == id
    ensures r.None? <==> forall m :: m in ms ==> m.id != id
  {
    if ms == [] then None
    else if ms[|ms| - 1].id == id then Some(ms[|ms| - 1])
    else Find(ms[..|ms| - 1], id)
  }

  ghost predicate UniqueIds(ms: seq<Message>) {
    forall i, j :: 0 <= i < j < |ms| ==> ms[i].id != ms[j].id
  }

  lemma FindIs(ms: seq<Message>, m: Message)
    requires UniqueIds(ms) && m in ms
    ensures Find(ms, m.id) == Some(m)
  {
  }

  lemma FindAppend(ms: seq<Message>, more: Message, id: string)
    ensures Find(ms + [more], id) == if more.id == id then Some(more) else Find(ms, id)
  {
    assert (ms + [more])[..|ms|] == ms;
  }
}
