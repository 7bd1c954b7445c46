/** Converting a ledger's tac ids to UUIDs, one row at a time, in one transaction. */
module TacMigration {
  import opened Tables
  import opened Identifiers

  /** A tacs row; `text` is its label. */
  datatype Row = Row(id: string, text: Option<string>, name: Option<string>, key: Option<string>)

  /** One delivery: the position of its message, who it is for, and its state. */
  datatype Mailing = Mailing(message: nat, recipient: string, state: DeliveryState)

  /** The tables that hold tac ids: tacs in id order, (tac, member), the tac of each message,
      (child, parent), and (old id, new id); and the deliveries, which are counted by tac. */
  datatype Db = Db(tacs: seq<Row>, members: seq<(string, string)>, mail: seq<Option<string>>,
      links: seq<(string, string)>,
                   legacy: seq<(string, string)>, deliveries: seq<Mailing>)

  type Renames = map<string, string>

  datatype Change = Change(oldId: string, name: string, key: string)

  // ─── planning ─────────────────────────────────────────────────

  predicate Done(r: Row) {
    r.name.Some? && IsCanonicalUuid(r.id)
  }

  /** The name of an existing tac is its old id, unless a rename says otherwise. */
  function Candidate(renames: Renames, r: Row): string {
    if Done(r) then r.name.value else if r.id in renames then renames[r.id] else r.id
  }

  function NewName(env: Env, renames: Renames, r: Row): string {
    env.strip(Candidate(renames, r))
  }

  function NewKey(env: Env, renames: Renames, r: Row): string {
    env.fold(NewName(env, renames, r))
  }

  predicate RowOk(env: Env, renames: Renames, r: Row) {
    env.nameOk(Candidate(renames, r)) && (Done(r) ==> r.key == Some(NewKey(env, renames, r)))
  }

  function Ids(tacs: seq<Row>): set<string> {
    set r | r in tacs :: r.id
  }

  /** No reference dangles. */
  predicate Resolves(db: Db) {
    var ids := Ids(db.tacs);
    && (forall p :: p in db.members ==> p.0 in ids)
    && (forall t :: t in db.mail && t.Some? ==> t.value in ids)
    && (forall p :: p in db.links ==> p.0 in ids && p.1 in ids)
  }

  ghost predicate RowsFit(env: Env, renames: Renames, tacs: seq<Row>) {
    && (forall r :: r in tacs ==> RowOk(env, renames, r))
    && (forall i, j :: 0 <= i < j < |tacs| ==> NewKey(env, renames, tacs[i]) != NewKey(env, renames, tacs[j]))
  }

  ghost predicate Plannable(env: Env, renames: Renames, db: Db) {
    RowsFit(env, renames, db.tacs) && Resolves(db)
  }

  function ChangeOf(env: Env, renames: Renames, r: Row): Change {
    Change(r.id, NewName(env, renames, r), NewKey(env, renames, r))
  }

  function Changes(env: Env, renames: Renames, tacs: seq<Row>): seq<Change> {
    if tacs == [] then []
    else
      var r := tacs[|tacs| - 1];
      Changes(env, renames, tacs[..|tacs| - 1]) + if Done(r) then [] else [ChangeOf(env, renames, r)]
  }

  /** Primary keys and UNIQUE constraints. */
  ghost predicate Keyed(db: Db) {
    && (forall i, j :: 0 <= i < j < |db.tacs| ==> db.tacs[i].id != db.tacs[j].id)
    && (forall i, j :: 0 <= i < j < |db.members| ==> db.members[i] != db.members[j])
    && (forall i, j :: 0 <= i < j < |db.links| ==> db.links[i] != db.links[j])
    && LegacyKeyed(db.legacy)
  }

  ghost predicate LegacyKeyed(legacy: seq<(string, string)>) {
    forall i, j :: 0 <= i < j < |legacy| ==> legacy[i].0 != legacy[j].0 && legacy[i].1 != legacy[j].1
  }

  ghost predicate Lists(env: Env, renames: Renames, tacs: seq<Row>, changes: seq<Change>) {
    && (forall c :: c in changes ==> exists r :: r in tacs && !Done(r) && c == ChangeOf(env, renames, r))
    && (forall r :: r in tacs && !Done(r) ==> ChangeOf(env, renames, r) in changes)
    && (forall i, j :: 0 <= i < j < |changes| ==> changes[i].oldId != changes[j].oldId)
  }

  /** The plan names each unconverted row once. */
  lemma {:induction false} ChangesAre(env: Env, renames: Renames, tacs: seq<Row>)
    requires forall i, j :: 0 <= i < j < |tacs| ==> tacs[i].id != tacs[j].id
    ensures Lists(env, renames, tacs, Changes(env, renames, tacs))
  {
    if tacs != [] {
      var front, r := tacs[..|tacs| - 1], tacs[|tacs| - 1];
      ChangesAre(env, renames, front);
      forall x | x in front ensures x.id != r.id {
        var i :| 0 <= i < |front| && front[i] == x;
        assert tacs[i] == x;
      }
      ListsMore(env, renames, front, Changes(env, renames, front), r);
      assert tacs == front + [r];
    }
  }

  lemma ListsMore(env: Env, renames: Renames, tacs: seq<Row>, changes: seq<Change>, r: Row)
    requires Lists(env, renames, tacs, changes) && forall x :: x in tacs ==> x.id != r.id
    ensures Lists(env, renames, tacs + [r], changes + if Done(r) then [] else [ChangeOf(env, renames, r)])
  {
    forall i | 0 <= i < |changes| ensures changes[i].oldId != r.id {
      assert changes[i] in changes;
    }
  }

  // ─── whose name is whose ──────────────────────────────────────

  /** The name a tac is to have: a converted one keeps its own; any other takes the one passed for its
      old id, and without one the old id itself. A label is never a name. */
  predicate Asks(renames: Renames, r: Row, name: string) {
    && (r.name.Some? && IsCanonicalUuid(r.id) ==> name == r.name.value)
    && (!(r.name.Some? && IsCanonicalUuid(r.id)) && r.id in renames ==> name == renames[r.id])
    && (!(r.name.Some? && IsCanonicalUuid(r.id)) && r.id !in renames ==> name == r.id)
  }

  /** The row afterwards: a converted one as it was, any other with the stripped name and its fold. */
  predicate TakesName(env: Env, renames: Renames, r: Row, after: Row) {
    if r.name.Some? && IsCanonicalUuid(r.id) then after == r
    else
      && after.name == Some(env.strip(if r.id in renames then renames[r.id] else r.id))
      && after.key == Some(env.fold(after.name.value))
  }

  /** This change is what this row needs. */
  predicate Needs(env: Env, renames: Renames, r: Row, c: Change) {
    && !(r.name.Some? && IsCanonicalUuid(r.id)) && c.oldId == r.id
    && c.name == env.strip(if r.id in renames then renames[r.id] else r.id) && c.key == env.fold(c.name)
  }

  /** The plan has a change for every row that needs one, and no other. */
  ghost predicate Proposes(env: Env, renames: Renames, tacs: seq<Row>, changes: seq<Change>) {
    && (forall r :: r in tacs && !(r.name.Some? && IsCanonicalUuid(r.id))
                    ==> exists c :: c in changes && Needs(env, renames, r, c))
    && (forall c :: c in changes ==> exists r :: r in tacs && Needs(env, renames, r, c))
  }

  lemma ChangeIsNeeded(env: Env, renames: Renames, r: Row)
    ensures Asks(renames, r, Candidate(renames, r))
    ensures !Done(r) ==> Needs(env, renames, r, ChangeOf(env, renames, r))
  {
  }

  lemma {:induction false} ChangesAreNeeded(env: Env, renames: Renames, tacs: seq<Row>)
    ensures Proposes(env, renames, tacs, Changes(env, renames, tacs))
  {
    if tacs != [] {
      var front, r := tacs[..|tacs| - 1], tacs[|tacs| - 1];
      var changes := Changes(env, renames, front);
      ChangesAreNeeded(env, renames, front);
      ChangeIsNeeded(env, renames, r);
      assert tacs == front + [r];
      var all := Changes(env, renames, tacs);
      assert all == changes + if Done(r) then [] else [ChangeOf(env, renames, r)];
      ProposesMore(env, renames, front, changes, r);
    }
  }

  lemma ProposesMore(env: Env, renames: Renames, tacs: seq<Row>, changes: seq<Change>, r: Row)
    requires Proposes(env, renames, tacs, changes)
    ensures Proposes(env, renames, tacs + [r], changes + if Done(r) then [] else [ChangeOf(env, renames, r)])
  {
    var more := if Done(r) then [] else [ChangeOf(env, renames, r)];
    forall x | x in tacs + [r] && !(x.name.Some? && IsCanonicalUuid(x.id))
      ensures exists c :: c in changes + more && Needs(env, renames, x, c)
    {
      if x in tacs {
        var c :| c in changes && Needs(env, renames, x, c);
        assert c in changes + more;
      } else {
        ChangeIsNeeded(env, renames, r);
        assert more[0] in changes + more;
      }
    }
    forall c | c in changes + more ensures exists x :: x in tacs + [r] && Needs(env, renames, x, c) {
      if c in changes {
        var x :| x in tacs && Needs(env, renames, x, c);
        assert x in tacs + [r];
      } else {
        ChangeIsNeeded(env, renames, r);
        assert r in tacs + [r];
      }
    }
  }

  /** A ledger can be planned exactly when every tac has a usable name, no two of these fold alike,
      each converted tac has the key of its name, and every tac that is referred to exists. */
  lemma PlannableExactly(env: Env, renames: Renames, db: Db)
    ensures Plannable(env, renames, db) <==>
              && (forall r, name :: r in db.tacs && Asks(renames, r, name) ==> env.nameOk(name))
              && (forall r :: r in db.tacs && r.name.Some? && IsCanonicalUuid(r.id)
                              ==> r.key == Some(env.fold(env.strip(r.name.value))))
              && (forall i, j, a, b :: 0 <= i < j < |db.tacs| && Asks(renames, db.tacs[i], a)
                                       && Asks(renames, db.tacs[j], b)
                                       ==> env.fold(env.strip(a)) != env.fold(env.strip(b)))
              && (forall p :: p in db.members ==> exists r :: r in db.tacs && r.id == p.0)
              && (forall t :: t in db.mail && t.Some? ==> exists r :: r in db.tacs && r.id == t.value)
              && (forall p :: p in db.links ==> (exists r :: r in db.tacs && r.id == p.0)
                                                && exists r :: r in db.tacs && r.id == p.1)
  {
    AsksOne(renames, db.tacs);
  }

  lemma AsksOne(renames: Renames, tacs: seq<Row>)
    ensures forall i, name :: 0 <= i < |tacs|
                              ==> (Asks(renames, tacs[i], name) <==> name == Candidate(renames, tacs[i]))
    ensures forall r, name :: r in tacs ==> (Asks(renames, r, name) <==> name == Candidate(renames, r))
  {
  }

  /** The same tacs, whatever their labels. */
  predicate SameButLabels(tacs: seq<Row>, others: seq<Row>) {
    |others| == |tacs| && forall i :: 0 <= i < |tacs| ==> others[i] == tacs[i].(text := others[i].text)
  }

  /** So no label decides whether a plan passes, what it plans, or whether it can be carried out. */
  lemma {:induction false} LabelsAreNoNames(env: Env, renames: Renames, tacs: seq<Row>, others: seq<Row>)
    requires SameButLabels(tacs, others)
    ensures Changes(env, renames, others) == Changes(env, renames, tacs)
  {
    if tacs != [] {
      var n := |tacs| - 1;
      assert SameButLabels(tacs[..n], others[..n]);
      LabelsAreNoNames(env, renames, tacs[..n], others[..n]);
      assert others[n] == tacs[n].(text := others[n].text);
    }
  }

  lemma LabelsDecideNothing(env: Env, renames: Renames, db: Db, other: Db)
    requires SameButLabels(db.tacs, other.tacs) && other == db.(tacs := other.tacs)
    ensures Plannable(env, renames, other) <==> Plannable(env, renames, db)
    ensures Ready(env, renames, other) <==> Ready(env, renames, db)
  {
    SameFit(env, renames, db.tacs, other.tacs);
    SameFit(env, renames, other.tacs, db.tacs);
    SameIds(db.tacs, other.tacs);
    SameReady(env, renames, db, other);
    SameReady(env, renames, other, db);
  }

  lemma SameIds(tacs: seq<Row>, others: seq<Row>)
    requires SameButLabels(tacs, others)
    ensures Ids(others) == Ids(tacs)
  {
    forall x ensures x in Ids(tacs) <==> x in Ids(others) {
      if x in Ids(tacs) {
        var i :| 0 <= i < |tacs| && tacs[i].id == x;
        assert others[i] in others;
      }
      if x in Ids(others) {
        var i :| 0 <= i < |others| && others[i].id == x;
        assert tacs[i] in tacs;
      }
    }
  }

  lemma SameReady(env: Env, renames: Renames, db: Db, other: Db)
    requires SameButLabels(db.tacs, other.tacs) && other == db.(tacs := other.tacs)
    ensures Ready(env, renames, db) ==> Ready(env, renames, other)
  {
    if Ready(env, renames, db) {
      SameLegacy(db, other);
      forall r | r in other.tacs && Done(r) ensures r.key == Some(env.fold(r.name.value)) {
        var i :| 0 <= i < |other.tacs| && other.tacs[i] == r;
        assert db.tacs[i] in db.tacs;
      }
    }
  }

  lemma SameLegacy(db: Db, other: Db)
    requires SameButLabels(db.tacs, other.tacs) && other.legacy == db.legacy && LegacyGivesWay(db)
    ensures LegacyGivesWay(other)
  {
    forall p, r | p in other.legacy && r in other.tacs && !Done(r) ensures p.0 != r.id {
      var i :| 0 <= i < |other.tacs| && other.tacs[i] == r;
      assert db.tacs[i] in db.tacs;
    }
    forall p | p in other.legacy ensures exists r :: r in other.tacs && Done(r) && r.id == p.1 {
      var x :| x in db.tacs && Done(x) && x.id == p.1;
      var i :| 0 <= i < |db.tacs| && db.tacs[i] == x;
      assert other.tacs[i] in other.tacs;
    }
  }

  lemma SameFit(env: Env, renames: Renames, tacs: seq<Row>, others: seq<Row>)
    requires SameButLabels(tacs, others)
    ensures RowsFit(env, renames, tacs) ==> RowsFit(env, renames, others)
  {
    if RowsFit(env, renames, tacs) {
      forall r | r in others ensures RowOk(env, renames, r) {
        var i :| 0 <= i < |others| && others[i] == r;
        assert tacs[i] in tacs;
      }
    }
  }

  // ─── one simultaneous renaming ────────────────────────────────

  function Sub(sigma: map<string, string>, x: string): string {
    if x in sigma then sigma[x] else x
  }

  /** UPDATE t SET first=... WHERE first=..., for every pair of sigma at once. */
  function SubFirst(sigma: map<string, string>, ps: seq<(string, string)>): (qs: seq<(string, string)>)
    ensures |qs| == |ps| && forall i :: 0 <= i < |ps| ==> qs[i] == (Sub(sigma, ps[i].0), ps[i].1)
  {
    seq(|ps|, i requires 0 <= i < |ps| => (Sub(sigma, ps[i].0), ps[i].1))
  }

  function SubSecond(sigma: map<string, string>, ps: seq<(string, string)>): (qs: seq<(string, string)>)
    ensures |qs| == |ps| && forall i :: 0 <= i < |ps| ==> qs[i] == (ps[i].0, Sub(sigma, ps[i].1))
  {
    seq(|ps|, i requires 0 <= i < |ps| => (ps[i].0, Sub(sigma, ps[i].1)))
  }

  function SubTac(sigma: map<string, string>, t: Option<string>): Option<string> {
    if t.Some? then Some(Sub(sigma, t.value)) else None
  }

  function SubMail(sigma: map<string, string>, ts: seq<Option<string>>): (us: seq<Option<string>>)
    ensures |us| == |ts| && forall i :: 0 <= i < |ts| ==> us[i] == SubTac(sigma, ts[i])
  {
    seq(|ts|, i requires 0 <= i < |ts| => SubTac(sigma, ts[i]))
  }

  function RowImage(env: Env, renames: Renames, sigma: map<string, string>, r: Row): Row {
    if Sub(sigma, r.id) == r.id then r
    else Row(Sub(sigma, r.id), r.text, Some(NewName(env, renames, r)), Some(NewKey(env, renames, r)))
  }

  function SubTacs(env: Env, renames: Renames, sigma: map<string, string>, tacs: seq<Row>): (out: seq<Row>)
    ensures |out| == |tacs| && forall i :: 0 <= i < |tacs| ==> out[i] == RowImage(env, renames, sigma, tacs[i])
  {
    seq(|tacs|, i requires 0 <= i < |tacs| => RowImage(env, renames, sigma, tacs[i]))
  }

  /** Every table with sigma applied at once. */
  function Image(env: Env, renames: Renames, sigma: map<string, string>, db: Db): Db {
    Db(SubTacs(env, renames, sigma, db.tacs), SubFirst(sigma, db.members), SubMail(sigma, db.mail),
       SubSecond(sigma, SubFirst(sigma, db.links)), db.legacy, db.deliveries)
  }

  predicate Injective(sigma: map<string, string>) {
    forall x, y :: x in sigma && y in sigma && sigma[x] == sigma[y] ==> x == y
  }

  // ─── one row of the conversion ────────────────────────────────

  function SetTac(r: Row, c: Change, id: string): Row {
    if r.id == c.oldId then Row(id, r.text, Some(c.name), Some(c.key)) else r
  }

  /** UPDATE tacs SET tac_id=?, name=?, name_key=? WHERE tac_id=? */
  function SetTacs(tacs: seq<Row>, c: Change, id: string): (out: seq<Row>)
    ensures |out| == |tacs| && forall i :: 0 <= i < |tacs| ==> out[i] == SetTac(tacs[i], c, id)
  {
    seq(|tacs|, i requires 0 <= i < |tacs| => SetTac(tacs[i], c, id))
  }

  function Converted(db: Db, c: Change, id: string): Db {
    var one := map[c.oldId := id];
    Db(SetTacs(db.tacs, c, id), SubFirst(one, db.members), SubMail(one, db.mail),
       SubSecond(one, SubFirst(one, db.links)), db.legacy + [(c.oldId, id)], db.deliveries)
  }

  predicate KeyTaken(tacs: seq<Row>, c: Change) {
    exists r :: r in tacs && r.id != c.oldId && r.key == Some(c.key)
  }

  predicate LegacyTaken(legacy: seq<(string, string)>, c: Change, id: string) {
    exists p :: p in legacy && (p.0 == c.oldId || p.1 == id)
  }

  /** Replacing one id after the others is replacing it along with them. */
  lemma SubOneMore(sigma: map<string, string>, oldId: string, id: string, x: string)
    requires Injective(sigma) && oldId in sigma && sigma[oldId] == oldId && x in sigma
    ensures Sub(map[oldId := id], Sub(sigma, x)) == Sub(sigma[oldId := id], x)
  {
  }

  lemma RowOneMore(env: Env, renames: Renames, sigma: map<string, string>, r: Row, id: string, x: Row)
    requires Injective(sigma) && r.id in sigma && sigma[r.id] == r.id && id != r.id && x.id in sigma
             && (x.id == r.id ==> x == r)
    ensures SetTac(RowImage(env, renames, sigma, x), ChangeOf(env, renames, r), id) ==
            RowImage(env, renames, sigma[r.id := id], x)
  {
    SubOneMore(sigma, r.id, id, x.id);
  }

  lemma TacsOneMore(env: Env, renames: Renames, sigma: map<string, string>, tacs: seq<Row>, r: Row, id: string)
    requires Injective(sigma) && sigma.Keys == Ids(tacs)
    requires r in tacs && sigma[r.id] == r.id && id != r.id && forall x :: x in tacs && x.id == r.id ==> x == r
    ensures SetTacs(SubTacs(env, renames, sigma, tacs), ChangeOf(env, renames, r), id) ==
            SubTacs(env, renames, sigma[r.id := id], tacs)
  {
    var c, more := ChangeOf(env, renames, r), sigma[r.id := id];
    forall i | 0 <= i < |tacs|
      ensures SetTac(RowImage(env, renames, sigma, tacs[i]), c, id) == RowImage(env, renames, more, tacs[i])
    {
      assert tacs[i] in tacs && tacs[i].id in sigma;
      RowOneMore(env, renames, sigma, r, id, tacs[i]);
    }
  }

  lemma MembersOneMore(sigma: map<string, string>, members: seq<(string, string)>, oldId: string, id: string)
    requires Injective(sigma) && oldId in sigma && sigma[oldId] == oldId && forall p :: p in members ==> p.0 in sigma
    ensures SubFirst(map[oldId := id], SubFirst(sigma, members)) == SubFirst(sigma[oldId := id], members)
  {
    forall i | 0 <= i < |members|
      ensures Sub(map[oldId := id], Sub(sigma, members[i].0)) == Sub(sigma[oldId := id], members[i].0)
    {
      assert members[i] in members;
      SubOneMore(sigma, oldId, id, members[i].0);
    }
  }

  lemma MailOneMore(sigma: map<string, string>, mail: seq<Option<string>>, oldId: string, id: string)
    requires Injective(sigma) && oldId in sigma && sigma[oldId] == oldId
             && forall t :: t in mail && t.Some? ==> t.value in sigma
    ensures SubMail(map[oldId := id], SubMail(sigma, mail)) == SubMail(sigma[oldId := id], mail)
  {
    forall i | 0 <= i < |mail|
      ensures SubTac(map[oldId := id], SubTac(sigma, mail[i])) == SubTac(sigma[oldId := id], mail[i])
    {
      assert mail[i] in mail;
      if mail[i].Some? { SubOneMore(sigma, oldId, id, mail[i].value); }
    }
  }

  lemma LinksOneMore(sigma: map<string, string>, links: seq<(string, string)>, oldId: string, id: string)
    requires Injective(sigma) && oldId in sigma && sigma[oldId] == oldId
    requires forall p :: p in links ==> p.0 in sigma && p.1 in sigma
    ensures var one, more := map[oldId := id], sigma[oldId := id];
            SubSecond(one, SubFirst(one, SubSecond(sigma, SubFirst(sigma, links)))) ==
                SubSecond(more, SubFirst(more, links))
  {
    forall i | 0 <= i < |links|
      ensures Sub(map[oldId := id], Sub(sigma, links[i].0)) == Sub(sigma[oldId := id], links[i].0)
              && Sub(map[oldId := id], Sub(sigma, links[i].1)) == Sub(sigma[oldId := id], links[i].1)
    {
      assert links[i] in links;
      SubOneMore(sigma, oldId, id, links[i].0);
      SubOneMore(sigma, oldId, id, links[i].1);
    }
  }

  // ─── how far the loop has come ────────────────────────────────

  /** The renaming after k changes moves exactly their ids, each to a UUID. */
  ghost predicate Moves(changes: seq<Change>, k: nat, sigma: map<string, string>, made: seq<(string, string)>) {
    && k <= |changes| && |made| == k && Injective(sigma)
    && (forall x :: x in sigma && sigma[x] != x ==> x in Olds(changes[..k]))
    && (forall j :: 0 <= j < |changes| ==> changes[j].oldId in sigma)
    && (forall j :: 0 <= j < k ==> made[j] == (changes[j].oldId, sigma[changes[j].oldId]) && made[j].0 != made[j].1
                                   && IsCanonicalUuid(made[j].1))
  }

  /** After k changes the tables are the originals under one injective renaming. */
  ghost predicate Progress(env: Env, renames: Renames, was: Db, db: Db, changes: seq<Change>, k: nat,
        sigma: map<string, string>, made: seq<(string, string)>)
  {
    && sigma.Keys == Ids(was.tacs) && Moves(changes, k, sigma, made)
    && db == Image(env, renames, sigma, was).(legacy := was.legacy + made)
  }

  function Olds(changes: seq<Change>): set<string> {
    set c | c in changes :: c.oldId
  }

  lemma {:induction false} IdsAre(env: Env, renames: Renames, sigma: map<string, string>, tacs: seq<Row>, y: string)
    requires Ids(tacs) <= sigma.Keys
    ensures y in Ids(SubTacs(env, renames, sigma, tacs)) <==> exists r :: r in tacs && sigma[r.id] == y
  {
    if tacs != [] {
      var front, r := tacs[..|tacs| - 1], tacs[|tacs| - 1];
      assert tacs == front + [r];
      IdsAre(env, renames, sigma, front, y);
      assert Sub(sigma, r.id) == sigma[r.id];
      assert SubTacs(env, renames, sigma, tacs) ==
          SubTacs(env, renames, sigma, front) + [RowImage(env, renames, sigma, r)];
    }
  }

  lemma IdsAreValues(env: Env, renames: Renames, sigma: map<string, string>, tacs: seq<Row>)
    requires Ids(tacs) == sigma.Keys
    ensures Ids(SubTacs(env, renames, sigma, tacs)) == sigma.Values
  {
    forall y ensures y in Ids(SubTacs(env, renames, sigma, tacs)) <==> y in sigma.Values {
      IdsAre(env, renames, sigma, tacs, y);
      if y in sigma.Values {
        var x :| x in sigma && sigma[x] == y;
        var r :| r in tacs && r.id == x;
      }
    }
  }

  lemma NotYet(changes: seq<Change>, k: nat, x: string)
    requires k < |changes| && (forall i, j :: 0 <= i < j < |changes| ==> changes[i].oldId != changes[j].oldId)
    ensures changes[k].oldId !in Olds(changes[..k])
    ensures Olds(changes[..k + 1]) == Olds(changes[..k]) + {changes[k].oldId}
  {
    assert changes[..k + 1] == changes[..k] + [changes[k]];
  }

  lemma SameRow(tacs: seq<Row>)
    requires forall i, j :: 0 <= i < j < |tacs| ==> tacs[i].id != tacs[j].id
    ensures forall x, y :: x in tacs && y in tacs && x.id == y.id ==> x == y
  {
  }

  /** Every reference is in the renaming's domain. */
  ghost predicate Covers(sigma: map<string, string>, db: Db) {
    && (forall p :: p in db.members ==> p.0 in sigma)
    && (forall t :: t in db.mail && t.Some? ==> t.value in sigma)
    && (forall p :: p in db.links ==> p.0 in sigma && p.1 in sigma)
  }

  lemma ReferencesOneMore(sigma: map<string, string>, was: Db, oldId: string, id: string)
    requires Covers(sigma, was) && Injective(sigma) && oldId in sigma && sigma[oldId] == oldId
    ensures var one, more := map[oldId := id], sigma[oldId := id];
            && SubFirst(one, SubFirst(sigma, was.members)) == SubFirst(more, was.members)
            && SubMail(one, SubMail(sigma, was.mail)) == SubMail(more, was.mail)
            && SubSecond(one, SubFirst(one, SubSecond(sigma, SubFirst(sigma, was.links)))) ==
                SubSecond(more, SubFirst(more, was.links))
  {
    MembersOneMore(sigma, was.members, oldId, id);
    MailOneMore(sigma, was.mail, oldId, id);
    LinksOneMore(sigma, was.links, oldId, id);
  }

  lemma LegacyOneMore(legacy: seq<(string, string)>, made: seq<(string, string)>, p: (string, string))
    ensures (legacy + made) + [p] == legacy + (made + [p])
  {
  }

  lemma TablesOneMore(env: Env, renames: Renames, was: Db, sigma: map<string, string>, made: seq<(string, string)>,
        r: Row, id: string)
    requires Keyed(was) && Covers(sigma, was) && Injective(sigma) && sigma.Keys == Ids(was.tacs)
    requires r in was.tacs && sigma[r.id] == r.id && id != r.id
    ensures Converted(Image(env, renames, sigma, was).(legacy := was.legacy + made), ChangeOf(env, renames, r), id)
            == Image(env, renames, sigma[r.id := id], was).(legacy := was.legacy + (made + [(r.id, id)]))
  {
    ReferencesOneMore(sigma, was, r.id, id);
    LegacyOneMore(was.legacy, made, (r.id, id));
    assert SetTacs(SubTacs(env, renames, sigma, was.tacs), ChangeOf(env, renames, r), id) ==
        SubTacs(env, renames, sigma[r.id := id], was.tacs) by {
      SameRow(was.tacs);
      TacsOneMore(env, renames, sigma, was.tacs, r, id);
    }
  }

  lemma SigmaOneMore(changes: seq<Change>, k: nat, sigma: map<string, string>, made: seq<(string, string)>, id: string)
    requires Moves(changes, k, sigma, made) && k < |changes| && id !in sigma.Values && IsCanonicalUuid(id)
    requires forall i, j :: 0 <= i < j < |changes| ==> changes[i].oldId != changes[j].oldId
    ensures sigma[changes[k].oldId := id].Keys == sigma.Keys
    ensures var c := changes[k];
            sigma[c.oldId] == c.oldId && id != c.oldId
            && Moves(changes, k + 1, sigma[c.oldId := id], made + [(c.oldId, id)])
  {
    var c := changes[k];
    NotYet(changes, k, c.oldId);
    assert sigma[c.oldId] == c.oldId && c.oldId in sigma.Values;
    var more := sigma[c.oldId := id];
    forall x, y | x in more && y in more && more[x] == more[y] ensures x == y {
      assert x != c.oldId ==> more[x] in sigma.Values;
      assert y != c.oldId ==> more[y] in sigma.Values;
    }
  }

  lemma TablesMoved(env: Env, renames: Renames, was: Db, c: Change, sigma: map<string, string>,
        made: seq<(string, string)>, id: string)
    requires Keyed(was) && Covers(sigma, was) && Injective(sigma) && sigma.Keys == Ids(was.tacs)
    requires c.oldId in sigma && sigma[c.oldId] == c.oldId && id != c.oldId
    requires exists r :: r in was.tacs && c == ChangeOf(env, renames, r)
    ensures Converted(Image(env, renames, sigma, was).(legacy := was.legacy + made), c, id)
            == Image(env, renames, sigma[c.oldId := id], was).(legacy := was.legacy + (made + [(c.oldId, id)]))
  {
    var r :| r in was.tacs && c == ChangeOf(env, renames, r);
    TablesOneMore(env, renames, was, sigma, made, r, id);
  }

  lemma ChangeHasRow(env: Env, renames: Renames, tacs: seq<Row>, changes: seq<Change>, k: nat)
    requires Lists(env, renames, tacs, changes) && k < |changes|
    ensures exists r :: r in tacs && changes[k] == ChangeOf(env, renames, r)
  {
    assert changes[k] in changes;
  }

  lemma FreshForSigma(env: Env, renames: Renames, was: Db, sigma: map<string, string>, made: seq<(string, string)>,
        id: string)
    requires sigma.Keys == Ids(was.tacs)
             && id !in Ids(Image(env, renames, sigma, was).(legacy := was.legacy + made).tacs)
    ensures id !in sigma.Values
  {
    IdsAreValues(env, renames, sigma, was.tacs);
  }

  lemma ProgressOneMore(env: Env, renames: Renames, was: Db, db: Db, changes: seq<Change>, k: nat,
        sigma: map<string, string>, made: seq<(string, string)>, id: string)
    requires Keyed(was) && Covers(sigma, was) && k < |changes|
    requires exists r :: r in was.tacs && changes[k] == ChangeOf(env, renames, r)
    requires forall i, j :: 0 <= i < j < |changes| ==> changes[i].oldId != changes[j].oldId
    requires Progress(env, renames, was, db, changes, k, sigma, made)
    requires id !in Ids(db.tacs) && IsCanonicalUuid(id)
    ensures var c := changes[k];
            Progress(env, renames, was, Converted(db, c, id), changes, k + 1, sigma[c.oldId := id],
                made + [(c.oldId, id)])
  {
    var c := changes[k];
    var more, made' := sigma[c.oldId := id], made + [(c.oldId, id)];
    assert sigma[c.oldId] == c.oldId && id != c.oldId && Moves(changes, k + 1, more, made')
           && more.Keys == sigma.Keys by {
      FreshForSigma(env, renames, was, sigma, made, id);
      SigmaOneMore(changes, k, sigma, made, id);
    }
    TablesMoved(env, renames, was, c, sigma, made, id);
  }

  // ─── what a finished conversion is ────────────────────────────

  /** What becomes of one tac: its new id, the label it had, and its name and key. */
  predicate RowMeans(env: Env, renames: Renames, sigma: map<string, string>, r: Row, after: Row) {
    && after.id == Sub(sigma, r.id) && after.text == r.text
    && TakesName(env, renames, r, after) && (Done(r) ==> after == r)
    && after.name.Some? && after.key == Some(NewKey(env, renames, r))
  }

  lemma RowsMean(env: Env, renames: Renames, sigma: map<string, string>, r: Row)
    requires RowOk(env, renames, r) && r.id in sigma && (sigma[r.id] == r.id <==> Done(r))
    ensures RowMeans(env, renames, sigma, r, RowImage(env, renames, sigma, r))
  {
  }

  /** One bijection, the identity on converted rows, and every table is the original with it
      applied; each other tac keeps its label and gets its name and key. */
  ghost predicate Meaning(env: Env, renames: Renames, was: Db, db: Db, sigma: map<string, string>,
        made: seq<(string, string)>)
  {
    && sigma.Keys == Ids(was.tacs) && sigma.Values == Ids(db.tacs) && Injective(sigma)
    && (forall r :: r in was.tacs ==> (sigma[r.id] == r.id <==> Done(r)) && IsCanonicalUuid(sigma[r.id]))
    && |db.tacs| == |was.tacs|
    && (forall i :: 0 <= i < |db.tacs| ==> RowMeans(env, renames, sigma, was.tacs[i], db.tacs[i]))
    && db.members == SubFirst(sigma, was.members)
    && db.mail == SubMail(sigma, was.mail)
    && db.links == SubSecond(sigma, SubFirst(sigma, was.links))
    && db.legacy == was.legacy + made && db.deliveries == was.deliveries
    && (forall p :: p in made <==> p.0 in sigma && p.1 == sigma[p.0] && p.0 != p.1)
  }

  lemma MadeAre(changes: seq<Change>, sigma: map<string, string>, made: seq<(string, string)>)
    requires Moves(changes, |changes|, sigma, made)
    ensures forall p :: p in made <==> p.0 in sigma && p.1 == sigma[p.0] && p.0 != p.1
  {
    assert changes[..|changes|] == changes;
    forall p: (string, string) | p.0 in sigma && p.1 == sigma[p.0] && p.0 != p.1 ensures p in made {
      var c :| c in changes && c.oldId == p.0;
      var j :| 0 <= j < |changes| && changes[j] == c;
      assert made[j] == p;
    }
  }

  lemma MovesTheUnconverted(env: Env, renames: Renames, tacs: seq<Row>, changes: seq<Change>,
        sigma: map<string, string>, made: seq<(string, string)>, r: Row)
    requires (forall x, y :: x in tacs && y in tacs && x.id == y.id ==> x == y) && Lists(env, renames, tacs, changes)
    requires Moves(changes, |changes|, sigma, made) && r in tacs && r.id in sigma
    ensures (sigma[r.id] == r.id <==> Done(r)) && IsCanonicalUuid(sigma[r.id])
  {
    assert changes[..|changes|] == changes;
    if Done(r) {
      forall c | c in changes ensures c.oldId != r.id {
        var x :| x in tacs && !Done(x) && c == ChangeOf(env, renames, x);
      }
    } else {
      var j :| 0 <= j < |changes| && changes[j] == ChangeOf(env, renames, r);
      assert made[j].0 == r.id;
    }
  }

  lemma FinishedMeans(env: Env, renames: Renames, was: Db, db: Db, changes: seq<Change>, sigma: map<string, string>,
        made: seq<(string, string)>)
    requires Keyed(was) && RowsFit(env, renames, was.tacs) && Lists(env, renames, was.tacs, changes)
    requires Progress(env, renames, was, db, changes, |changes|, sigma, made)
    ensures Meaning(env, renames, was, db, sigma, made)
  {
    MadeAre(changes, sigma, made);
    SameRow(was.tacs);
    forall r | r in was.tacs ensures (sigma[r.id] == r.id <==> Done(r)) && IsCanonicalUuid(sigma[r.id]) {
      assert r.id in sigma.Keys;
      MovesTheUnconverted(env, renames, was.tacs, changes, sigma, made, r);
    }
    IdsAreValues(env, renames, sigma, was.tacs);
    forall i | 0 <= i < |was.tacs| ensures RowMeans(env, renames, sigma, was.tacs[i], db.tacs[i]) {
      assert was.tacs[i] in was.tacs;
      RowsMean(env, renames, sigma, was.tacs[i]);
    }
  }

  lemma StaysKeyed(env: Env, renames: Renames, was: Db, db: Db, sigma: map<string, string>, made: seq<(string, string)>)
    requires Keyed(was) && Resolves(was) && Meaning(env, renames, was, db, sigma, made) && LegacyKeyed(db.legacy)
    ensures Keyed(db)
  {
    forall i | 0 <= i < |was.tacs| ensures was.tacs[i].id in sigma && db.tacs[i].id == sigma[was.tacs[i].id] {
      assert was.tacs[i] in was.tacs;
    }
    assert forall i, j :: 0 <= i < j < |db.tacs| ==> was.tacs[i].id != was.tacs[j].id && db.tacs[i].id != db.tacs[j].id;
    StartsCovered(was, sigma);
    PairsStayApart(sigma, was.members, was.links);
  }

  lemma PairsStayApart(sigma: map<string, string>, members: seq<(string, string)>, links: seq<(string, string)>)
    requires Injective(sigma) && (forall p :: p in members ==> p.0 in sigma)
             && (forall p :: p in links ==> p.0 in sigma && p.1 in sigma)
    requires forall i, j :: 0 <= i < j < |members| ==> members[i] != members[j]
    requires forall i, j :: 0 <= i < j < |links| ==> links[i] != links[j]
    ensures var out := SubFirst(sigma, members); forall i, j :: 0 <= i < j < |out| ==> out[i] != out[j]
    ensures var out := SubSecond(sigma, SubFirst(sigma, links)); forall i, j :: 0 <= i < j < |out| ==> out[i] != out[j]
  {
    forall i | 0 <= i < |members| ensures members[i].0 in sigma { assert members[i] in members; }
    forall i | 0 <= i < |links| ensures links[i].0 in sigma && links[i].1 in sigma { assert links[i] in links; }
    var out := SubFirst(sigma, members);
    forall i, j | 0 <= i < j < |out| ensures out[i] != out[j] { assert members[i] != members[j]; }
    var both := SubSecond(sigma, SubFirst(sigma, links));
    forall i, j | 0 <= i < j < |both| ensures both[i] != both[j] { assert links[i] != links[j]; }
  }

  // ─── what it means for every reader ───────────────────────────

  predicate CountsFor(mail: seq<Option<string>>, d: Mailing, node: string, tac: string, states: set<DeliveryState>) {
    d.recipient == node && d.state in states && d.message < |mail| && mail[d.message] == Some(tac)
  }

  /** SELECT COUNT(*) of a node's deliveries of messages in a tac, in some states. */
  function CountIn(mail: seq<Option<string>>, ds: seq<Mailing>, node: string, tac: string,
        states: set<DeliveryState>): nat
  {
    if ds == [] then 0
    else CountIn(mail, ds[..|ds| - 1], node, tac, states) + if CountsFor(mail, ds[|ds| - 1], node, tac, states)
                                                            then 1 else 0
  }

  lemma {:induction false} CountKept(mail: seq<Option<string>>, after: seq<Option<string>>, ds: seq<Mailing>,
        node: string, tac: string, id: string, states: set<DeliveryState>)
    requires |after| == |mail| && forall i :: 0 <= i < |mail| ==> (mail[i] == Some(tac) <==> after[i] == Some(id))
    ensures CountIn(after, ds, node, id, states) == CountIn(mail, ds, node, tac, states)
  {
    if ds != [] { CountKept(mail, after, ds[..|ds| - 1], node, tac, id, states); }
  }

  lemma MailKept(sigma: map<string, string>, mail: seq<Option<string>>, tac: string)
    requires Injective(sigma) && tac in sigma && forall t :: t in mail && t.Some? ==> t.value in sigma
    ensures forall i :: 0 <= i < |mail| ==> (mail[i] == Some(tac) <==> SubMail(sigma, mail)[i] == Some(sigma[tac]))
  {
    forall i | 0 <= i < |mail| ensures mail[i] == Some(tac) <==> SubMail(sigma, mail)[i] == Some(sigma[tac]) {
      assert mail[i] in mail;
    }
  }

  /** For every node and tac, what is unread (in whichever states count as unread) stays the same
      number under the tac's new id. */
  lemma UnreadCountsStay(env: Env, renames: Renames, was: Db, db: Db, sigma: map<string, string>,
        made: seq<(string, string)>, node: string, tac: string, states: set<DeliveryState>)
    requires Meaning(env, renames, was, db, sigma, made) && Covers(sigma, was) && tac in sigma
    ensures CountIn(db.mail, db.deliveries, node, sigma[tac], states) ==
            CountIn(was.mail, was.deliveries, node, tac, states)
  {
    MailKept(sigma, was.mail, tac);
    CountKept(was.mail, db.mail, was.deliveries, node, tac, sigma[tac], states);
  }

  /** Each tac keeps its members, its messages and its links, and each node its unread count in it:
      every question about a tac has the same answer about its new id. */
  lemma QueriesKeepTheirAnswers(env: Env, renames: Renames, was: Db, db: Db, sigma: map<string, string>,
        made: seq<(string, string)>, tac: string)
    requires Meaning(env, renames, was, db, sigma, made) && Covers(sigma, was) && tac in sigma
    ensures |db.mail| == |was.mail|
            && forall i :: 0 <= i < |was.mail| ==> (was.mail[i] == Some(tac) <==> db.mail[i] == Some(sigma[tac]))
    ensures forall node :: (tac, node) in was.members <==> (sigma[tac], node) in db.members
    ensures forall other :: other in sigma ==> ((tac, other) in was.links <==> (sigma[tac], sigma[other]) in db.links)
    ensures forall node, states ::
              CountIn(db.mail, db.deliveries, node, sigma[tac], states)
              == CountIn(was.mail, was.deliveries, node, tac, states)
  {
    MailKept(sigma, was.mail, tac);
    forall node ensures (tac, node) in was.members <==> (sigma[tac], node) in db.members {
      MemberKept(sigma, was.members, tac, node);
    }
    forall other | other in sigma ensures (tac, other) in was.links <==> (sigma[tac], sigma[other]) in db.links {
      LinkKept(sigma, was.links, tac, other);
    }
    forall node, states
      ensures CountIn(db.mail, db.deliveries, node, sigma[tac], states) ==
              CountIn(was.mail, was.deliveries, node, tac, states)
    {
      UnreadCountsStay(env, renames, was, db, sigma, made, node, tac, states);
    }
  }

  lemma MemberKept(sigma: map<string, string>, members: seq<(string, string)>, tac: string, node: string)
    requires Injective(sigma) && tac in sigma && forall p :: p in members ==> p.0 in sigma
    ensures (tac, node) in members <==> (sigma[tac], node) in SubFirst(sigma, members)
  {
    var out := SubFirst(sigma, members);
    if (tac, node) in members {
      var i :| 0 <= i < |members| && members[i] == (tac, node);
      assert out[i] == (sigma[tac], node);
    }
    if (sigma[tac], node) in out {
      var i :| 0 <= i < |out| && out[i] == (sigma[tac], node);
      assert members[i] in members;
    }
  }

  lemma LinkKept(sigma: map<string, string>, links: seq<(string, string)>, child: string, parent: string)
    requires Injective(sigma) && child in sigma && parent in sigma
             && forall p :: p in links ==> p.0 in sigma && p.1 in sigma
    ensures (child, parent) in links <==> (sigma[child], sigma[parent]) in SubSecond(sigma, SubFirst(sigma, links))
  {
    var out := SubSecond(sigma, SubFirst(sigma, links));
    if (child, parent) in links {
      var i :| 0 <= i < |links| && links[i] == (child, parent);
      assert out[i] == (sigma[child], sigma[parent]);
    }
    if (sigma[child], sigma[parent]) in out {
      var i :| 0 <= i < |out| && out[i] == (sigma[child], sigma[parent]);
      assert links[i] in links;
    }
  }

  // ─── the checks at the end ────────────────────────────────────

  /** key_mismatches: a stored key that this interpreter would not compute from the stored name. */
  predicate Stale(env: Env, tacs: seq<Row>) {
    exists r :: r in tacs && r.name.Some? && r.key != Some(env.fold(r.name.value))
  }

  /** The only foreign keys that the plan has not already looked at. */
  predicate LegacyResolves(db: Db) {
    forall p :: p in db.legacy ==> p.1 in Ids(db.tacs)
  }

  /** What CREATE UNIQUE INDEX on the key column refuses. */
  predicate SharedKey(tacs: seq<Row>) {
    exists i, j :: 0 <= i < j < |tacs| && tacs[i].key.Some? && tacs[i].key == tacs[j].key
  }

  /** Nothing left to convert and nothing to object to. */
  ghost predicate Settled(env: Env, renames: Renames, db: Db) {
    Plannable(env, renames, db) && Changes(env, renames, db.tacs) == []
    && !Stale(env, db.tacs) && LegacyResolves(db) && !SharedKey(db.tacs)
  }

  // ─── when a plan can be carried out ───────────────────────────

  /** No row still to come holds the new key of an earlier one. */
  ghost predicate KeysGiveWay(env: Env, renames: Renames, tacs: seq<Row>) {
    forall i, j :: 0 <= i < j < |tacs| && !Done(tacs[i]) && !Done(tacs[j])
                   ==> tacs[j].key != Some(NewKey(env, renames, tacs[i]))
  }

  /** No unconverted id is on record as converted before, and every id on record as minted is that
      of a converted tac. */
  ghost predicate LegacyGivesWay(db: Db) {
    && (forall p, r :: p in db.legacy && r in db.tacs && !Done(r) ==> p.0 != r.id)
    && (forall p :: p in db.legacy ==> exists r :: r in db.tacs && Done(r) && r.id == p.1)
  }

  /** The key of a converted tac is also that of its name as stored, without stripping. */
  ghost predicate NamesSettled(env: Env, tacs: seq<Row>) {
    forall r :: r in tacs && Done(r) ==> r.key == Some(env.fold(r.name.value))
  }

  ghost predicate Ready(env: Env, renames: Renames, db: Db) {
    !SharedKey(db.tacs) && KeysGiveWay(env, renames, db.tacs) && LegacyGivesWay(db) && NamesSettled(env, db.tacs)
  }

  /** A ledger from before the identity columns. */
  ghost predicate FirstTime(db: Db) {
    db.legacy == [] && forall r :: r in db.tacs ==> r.name.None? && r.key.None?
  }

  /** A usable name stays usable, and itself, once stripped. */
  ghost predicate StripSettles(env: Env) {
    forall x :: env.nameOk(x) ==> env.nameOk(env.strip(x)) && env.strip(env.strip(x)) == env.strip(x)
  }

  lemma FirstTimeIsReady(env: Env, renames: Renames, db: Db)
    requires FirstTime(db)
    ensures Ready(env, renames, db)
  {
    assert forall i :: 0 <= i < |db.tacs| ==> db.tacs[i] in db.tacs;
  }

  /** A tac "x" was converted and renamed to "y"; then an older release created another "x". */
  function AfterRollback(env: Env, id: string): Db {
    Db([Row(id, None, Some("y"), Some(env.fold("y"))), Row("x", None, None, None)], [], [], [], [("x", id)], [])
  }

  /** The plan passes, every key and reference is in order, and yet this ledger never converts: the
      old id is on record already. */
  lemma PassingPlanCannotConvert(env: Env, id: string)
    requires IsCanonicalUuid(id) && env.nameOk("x") && env.nameOk("y") && env.strip("x") == "x" && env.strip("y") == "y"
    requires env.fold("x") != env.fold("y")
    ensures var db := AfterRollback(env, id);
            Keyed(db) && Plannable(env, map[], db) && !SharedKey(db.tacs) && !Stale(env, db.tacs)
            && !Ready(env, map[], db)
  {
    var db := AfterRollback(env, id);
    assert |"x"| != |id|;
    assert db.tacs[0] in db.tacs && db.tacs[1] in db.tacs && ("x", id) in db.legacy;
  }

  /** Minted ids: distinct UUIDs, neither a tac's id nor on record as one, enough for every row. */
  ghost predicate GoodDraws(draws: seq<string>, db: Db) {
    && |draws| >= |db.tacs|
    && (forall i, j :: 0 <= i < j < |draws| ==> draws[i] != draws[j])
    && (forall d :: d in draws ==> d !in Ids(db.tacs))
    && (forall d, p :: d in draws && p in db.legacy ==> p.1 != d)
  }

  /** Where a change comes from: the rows before it in the table are the changes before it. */
  lemma {:induction false} ChangeAt(env: Env, renames: Renames, tacs: seq<Row>, k: nat) returns (i: nat)
    requires k < |Changes(env, renames, tacs)|
    ensures i < |tacs| && !Done(tacs[i])
    ensures Changes(env, renames, tacs)[..k] == Changes(env, renames, tacs[..i])
    ensures Changes(env, renames, tacs)[k] == ChangeOf(env, renames, tacs[i])
  {
    var front, r := tacs[..|tacs| - 1], tacs[|tacs| - 1];
    var changes := Changes(env, renames, front);
    if k < |changes| {
      i := ChangeAt(env, renames, front, k);
      assert front[..i] == tacs[..i];
      assert Changes(env, renames, tacs)[..k] == changes[..k];
    } else {
      i := |tacs| - 1;
      assert Changes(env, renames, tacs)[..k] == changes;
    }
  }

  /** Every unconverted row has its change. */
  lemma {:induction false} ChangeOfRow(env: Env, renames: Renames, tacs: seq<Row>, i: nat) returns (k: nat)
    requires i < |tacs| && !Done(tacs[i])
    ensures k < |Changes(env, renames, tacs)|
    ensures Changes(env, renames, tacs)[..k] == Changes(env, renames, tacs[..i])
    ensures Changes(env, renames, tacs)[k] == ChangeOf(env, renames, tacs[i])
  {
    var front, changes := tacs[..|tacs| - 1], Changes(env, renames, tacs[..|tacs| - 1]);
    if i < |tacs| - 1 {
      k := ChangeOfRow(env, renames, front, i);
      assert front[..i] == tacs[..i];
      assert Changes(env, renames, tacs)[..k] == changes[..k];
    } else {
      k := |changes|;
      assert Changes(env, renames, tacs)[..k] == changes;
    }
  }

  lemma {:induction false} OldsAre(env: Env, renames: Renames, tacs: seq<Row>, x: string)
    ensures x in Olds(Changes(env, renames, tacs)) <==> exists i :: 0 <= i < |tacs| && !Done(tacs[i]) && tacs[i].id == x
  {
    if tacs != [] {
      var front, r := tacs[..|tacs| - 1], tacs[|tacs| - 1];
      OldsAre(env, renames, front, x);
      var more := if Done(r) then [] else [ChangeOf(env, renames, r)];
      assert Olds(Changes(env, renames, front) + more) == Olds(Changes(env, renames, front)) + Olds(more);
      assert forall i :: 0 <= i < |front| ==> front[i] == tacs[i];
    }
  }

  lemma MovedIff(changes: seq<Change>, k: nat, sigma: map<string, string>, made: seq<(string, string)>, x: string)
    requires Moves(changes, k, sigma, made) && x in sigma
    ensures sigma[x] != x <==> x in Olds(changes[..k])
  {
    if x in Olds(changes[..k]) {
      var c :| c in changes[..k] && c.oldId == x;
      var m :| 0 <= m < k && changes[m] == c;
      assert made[m].0 != made[m].1;
    }
  }

  lemma IsAmong(tacs: seq<Row>, i: nat, j: nat)
    requires (forall a, b :: 0 <= a < b < |tacs| ==> tacs[a].id != tacs[b].id) && i <= |tacs| && j < |tacs|
    ensures (exists m :: 0 <= m < i && !Done(tacs[m]) && tacs[m].id == tacs[j].id) <==> j < i && !Done(tacs[j])
  {
  }

  /** So after k changes exactly the unconverted rows before row i have moved. */
  ghost predicate MovedTo(tacs: seq<Row>, i: nat, sigma: map<string, string>) {
    forall j :: 0 <= j < |tacs| ==> tacs[j].id in sigma
                                    && (sigma[tacs[j].id] != tacs[j].id <==> j < i && !Done(tacs[j]))
  }

  lemma MovedSoFar(env: Env, renames: Renames, tacs: seq<Row>, k: nat, i: nat, sigma: map<string, string>,
        made: seq<(string, string)>)
    requires (forall a, b :: 0 <= a < b < |tacs| ==> tacs[a].id != tacs[b].id) && sigma.Keys == Ids(tacs)
    requires k <= |Changes(env, renames, tacs)| && i <= |tacs|
    requires Changes(env, renames, tacs)[..k] == Changes(env, renames, tacs[..i])
    requires Moves(Changes(env, renames, tacs), k, sigma, made)
    ensures MovedTo(tacs, i, sigma)
  {
    forall j | 0 <= j < |tacs|
      ensures tacs[j].id in sigma && (sigma[tacs[j].id] != tacs[j].id <==> j < i && !Done(tacs[j]))
    {
      assert tacs[j] in tacs;
      OldsAre(env, renames, tacs[..i], tacs[j].id);
      assert forall m :: 0 <= m < i ==> tacs[..i][m] == tacs[m];
      IsAmong(tacs, i, j);
      MovedIff(Changes(env, renames, tacs), k, sigma, made, tacs[j].id);
    }
  }

  /** Row i is next: what is in its way is the stored key of a row still to come. */
  lemma KeyInTheWay(env: Env, renames: Renames, tacs: seq<Row>, sigma: map<string, string>, i: nat)
    requires RowsFit(env, renames, tacs) && i < |tacs| && !Done(tacs[i]) && sigma.Keys == Ids(tacs)
    requires forall a, b :: 0 <= a < b < |tacs| ==> tacs[a].id != tacs[b].id
    requires MovedTo(tacs, i, sigma)
    ensures KeyTaken(SubTacs(env, renames, sigma, tacs), ChangeOf(env, renames, tacs[i])) <==>
              exists j :: i < j < |tacs| && !Done(tacs[j]) && tacs[j].key == Some(NewKey(env, renames, tacs[i]))
  {
    var out, c := SubTacs(env, renames, sigma, tacs), ChangeOf(env, renames, tacs[i]);
    forall j | 0 <= j < |tacs|
      ensures out[j].id != c.oldId && out[j].key == Some(c.key)
              <==> i < j && !Done(tacs[j]) && tacs[j].key == Some(NewKey(env, renames, tacs[i]))
    {
      assert tacs[j] in tacs && RowOk(env, renames, tacs[j]);
      assert j != i ==> NewKey(env, renames, tacs[j]) != NewKey(env, renames, tacs[i]);
    }
    assert forall j :: 0 <= j < |out| ==> out[j] in out;
  }

  lemma {:induction false} NoMoreChangesThanRows(env: Env, renames: Renames, tacs: seq<Row>)
    ensures |Changes(env, renames, tacs)| <= |tacs|
  {
    if tacs != [] { NoMoreChangesThanRows(env, renames, tacs[..|tacs| - 1]); }
  }

  lemma NextDrawIsFree(env: Env, renames: Renames, was: Db, changes: seq<Change>, k: nat, sigma: map<string, string>,
        made: seq<(string, string)>, draws: seq<string>)
    requires sigma.Keys == Ids(was.tacs) && Moves(changes, k, sigma, made) && GoodDraws(draws, was) && k < |draws|
    requires forall j :: 0 <= j < k ==> made[j].1 == draws[j]
    ensures draws[k] !in Ids(SubTacs(env, renames, sigma, was.tacs))
  {
    IdsAreValues(env, renames, sigma, was.tacs);
    assert draws[k] in draws;
    forall x | x in sigma ensures sigma[x] != draws[k] {
      if sigma[x] == x {
        assert x in Ids(was.tacs);
      } else {
        var c :| c in changes[..k] && c.oldId == x;
        var j :| 0 <= j < k && changes[j] == c;
        assert made[j].1 == sigma[x];
      }
    }
  }

  lemma NoLegacyTaken(env: Env, renames: Renames, was: Db, changes: seq<Change>, k: nat, sigma: map<string, string>,
        made: seq<(string, string)>, id: string)
    requires sigma.Keys == Ids(was.tacs) && Moves(changes, k, sigma, made) && k < |changes|
    requires forall i, j :: 0 <= i < j < |changes| ==> changes[i].oldId != changes[j].oldId
    requires id !in Ids(SubTacs(env, renames, sigma, was.tacs))
    ensures !LegacyTaken(made, changes[k], id)
  {
    IdsAreValues(env, renames, sigma, was.tacs);
    forall p | p in made ensures p.0 != changes[k].oldId && p.1 != id {
      var j :| 0 <= j < |made| && made[j] == p;
      assert sigma[changes[j].oldId] in sigma.Values;
    }
  }

  lemma LastPlanIsEmpty(env: Env, renames: Renames, was: Db, db: Db, sigma: map<string, string>,
        made: seq<(string, string)>)
    requires RowsFit(env, renames, was.tacs) && StripSettles(env) && NamesSettled(env, was.tacs)
    requires Meaning(env, renames, was, db, sigma, made)
    ensures RowsFit(env, renames, db.tacs) && !Stale(env, db.tacs) && !SharedKey(db.tacs)
    ensures forall r :: r in db.tacs ==> Done(r)
  {
    forall i | 0 <= i < |db.tacs|
      ensures var x, r := was.tacs[i], db.tacs[i];
              Done(r) && RowOk(env, renames, r) && NewKey(env, renames, r) == NewKey(env, renames, x)
              && r.key == Some(NewKey(env, renames, x)) && r.key == Some(env.fold(r.name.value))
    {
      var x := was.tacs[i];
      assert x in was.tacs && RowOk(env, renames, x);
      assert sigma[x.id] == db.tacs[i].id;
      assert env.nameOk(Candidate(renames, x));
    }
  }

  lemma {:induction false} NothingLeft(env: Env, renames: Renames, tacs: seq<Row>)
    ensures Changes(env, renames, tacs) == [] <==> forall r :: r in tacs ==> Done(r)
  {
    if tacs != [] {
      NothingLeft(env, renames, tacs[..|tacs| - 1]);
      assert tacs == tacs[..|tacs| - 1] + [tacs[|tacs| - 1]];
    }
  }

  lemma FirstsFollow(sigma: map<string, string>, ps: seq<(string, string)>)
    requires forall p :: p in ps ==> p.0 in sigma
    ensures forall p :: p in SubFirst(sigma, ps) ==> p.0 in sigma.Values
  {
    var qs := SubFirst(sigma, ps);
    forall p | p in qs ensures p.0 in sigma.Values {
      var i :| 0 <= i < |qs| && qs[i] == p;
      assert ps[i] in ps;
    }
  }

  lemma BothFollow(sigma: map<string, string>, ps: seq<(string, string)>)
    requires forall p :: p in ps ==> p.0 in sigma && p.1 in sigma
    ensures forall p :: p in SubSecond(sigma, SubFirst(sigma, ps)) ==> p.0 in sigma.Values && p.1 in sigma.Values
  {
    var qs := SubSecond(sigma, SubFirst(sigma, ps));
    forall p | p in qs ensures p.0 in sigma.Values && p.1 in sigma.Values {
      var i :| 0 <= i < |qs| && qs[i] == p;
      assert ps[i] in ps;
    }
  }

  lemma MailFollows(sigma: map<string, string>, ts: seq<Option<string>>)
    requires forall t :: t in ts && t.Some? ==> t.value in sigma
    ensures forall t :: t in SubMail(sigma, ts) && t.Some? ==> t.value in sigma.Values
  {
    var us := SubMail(sigma, ts);
    forall t | t in us && t.Some? ensures t.value in sigma.Values {
      var i :| 0 <= i < |us| && us[i] == t;
      assert ts[i] in ts;
    }
  }

  lemma ReferencesFollow(was: Db, db: Db, sigma: map<string, string>)
    requires Covers(sigma, was) && sigma.Values == Ids(db.tacs)
    requires db.members == SubFirst(sigma, was.members) && db.mail == SubMail(sigma, was.mail)
             && db.links == SubSecond(sigma, SubFirst(sigma, was.links))
    ensures Resolves(db)
  {
    FirstsFollow(sigma, was.members);
    MailFollows(sigma, was.mail);
    BothFollow(sigma, was.links);
  }

  lemma ReadySettles(env: Env, renames: Renames, was: Db, db: Db, sigma: map<string, string>,
        made: seq<(string, string)>)
    requires RowsFit(env, renames, was.tacs) && Covers(sigma, was) && StripSettles(env) && Ready(env, renames, was)
    requires Meaning(env, renames, was, db, sigma, made)
    ensures Settled(env, renames, db)
  {
    LastPlanIsEmpty(env, renames, was, db, sigma, made);
    NothingLeft(env, renames, db.tacs);
    ReferencesFollow(was, db, sigma);
    forall p | p in db.legacy ensures p.1 in sigma.Values {
      if p in was.legacy {
        var r :| r in was.tacs && Done(r) && r.id == p.1;
        assert sigma[r.id] == r.id;
      } else {
        assert p in made;
      }
    }
  }

  // ─── the loop as a function ───────────────────────────────────

  /** Where the first draw lies, from start on, that is nobody's id. */
  function FirstFree(taken: set<string>, draws: seq<string>, start: nat): (i: nat)
    requires start <= |draws|
    ensures start <= i <= |draws| && (i < |draws| ==> draws[i] !in taken)
    ensures forall j :: start <= j < i ==> draws[j] in taken
    decreases |draws| - start
  {
    if start == |draws| || draws[start] !in taken then start else FirstFree(taken, draws, start + 1)
  }

  datatype Walk = Stuck | Walk(db: Db, next: nat, made: seq<(string, string)>)

  /** One more change, with the first id that is free. */
  function Further(w: Walk, c: Change, draws: seq<string>): Walk {
    if w.Stuck? || w.next > |draws| then Stuck
    else
      var found := FirstFree(Ids(w.db.tacs), draws, w.next);
      if found == |draws| || KeyTaken(w.db.tacs, c) || LegacyTaken(w.db.legacy, c, draws[found]) then Stuck
      else Walk(Converted(w.db, c, draws[found]), found + 1, w.made + [(c.oldId, draws[found])])
  }

  /** Where the loop stood before each change and after the last one it made. */
  ghost predicate Chain(was: Db, changes: seq<Change>, draws: seq<string>, ws: seq<Walk>) {
    && 1 <= |ws| <= |changes| + 1
    && ws[0] == Walk(was, 0, [])
    && forall k: nat :: k + 1 < |ws| ==> Link(changes, draws, ws, k)
  }

  ghost predicate Link(changes: seq<Change>, draws: seq<string>, ws: seq<Walk>, k: nat)
    requires k + 1 < |ws| && k < |changes|
  {
    ws[k + 1].Walk? && ws[k + 1] == Further(ws[k], changes[k], draws)
  }

  lemma FurtherProgress(env: Env, renames: Renames, was: Db, changes: seq<Change>, draws: seq<string>, k: nat, w: Walk,
        before: map<string, string>)
      returns (sigma: map<string, string>)
    requires Keyed(was) && Covers(before, was) && Lists(env, renames, was.tacs, changes) && k < |changes|
    requires w.Walk? && Progress(env, renames, was, w.db, changes, k, before, w.made) && LegacyKeyed(w.db.legacy)
    requires (forall d :: d in draws ==> IsCanonicalUuid(d)) && Further(w, changes[k], draws).Walk?
    ensures var v := Further(w, changes[k], draws);
            Progress(env, renames, was, v.db, changes, k + 1, sigma, v.made) && Covers(sigma, was)
            && LegacyKeyed(v.db.legacy)
  {
    var c := changes[k];
    var id := draws[FirstFree(Ids(w.db.tacs), draws, w.next)];
    assert id in draws;
    assert LegacyKeyed(w.db.legacy + [(c.oldId, id)]) by { LegacyStays(w.db.legacy, c, id); }
    sigma := before[c.oldId := id];
    assert Progress(env, renames, was, Converted(w.db, c, id), changes, k + 1, sigma, w.made + [(c.oldId, id)]) by {
      ChangeHasRow(env, renames, was.tacs, changes, k);
      ProgressOneMore(env, renames, was, w.db, changes, k, before, w.made, id);
    }
  }

  lemma LegacyStays(legacy: seq<(string, string)>, c: Change, id: string)
    requires LegacyKeyed(legacy) && !LegacyTaken(legacy, c, id)
    ensures LegacyKeyed(legacy + [(c.oldId, id)])
  {
    assert forall i :: 0 <= i < |legacy| ==> legacy[i] in legacy;
  }

  /** The walk is where the loop stands: consistent, and so far along. */
  ghost predicate Good(env: Env, renames: Renames, was: Db, changes: seq<Change>, k: nat, sigma: map<string, string>,
        w: Walk)
  {
    w.Walk? && Progress(env, renames, was, w.db, changes, k, sigma, w.made) && Covers(sigma, was)
    && LegacyKeyed(w.db.legacy)
  }

  /** What a plan hands to the loop. */
  ghost predicate Planned(env: Env, renames: Renames, was: Db, changes: seq<Change>, draws: seq<string>) {
    Keyed(was) && Plannable(env, renames, was) && Lists(env, renames, was.tacs, changes)
    && forall d :: d in draws ==> IsCanonicalUuid(d)
  }

  lemma GoodStart(env: Env, renames: Renames, was: Db, changes: seq<Change>, draws: seq<string>)
      returns (sigma: map<string, string>)
    requires Planned(env, renames, was, changes, draws)
    ensures Good(env, renames, was, changes, 0, sigma, Walk(was, 0, []))
  {
    sigma := map x | x in Ids(was.tacs) :: x;
    StartsSame(env, renames, was, changes, sigma);
    StartsCovered(was, sigma);
  }

  lemma GoodFurther(env: Env, renames: Renames, was: Db, changes: seq<Change>, draws: seq<string>, k: nat, w: Walk,
        before: map<string, string>, v: Walk)
      returns (sigma: map<string, string>)
    requires Planned(env, renames, was, changes, draws) && k < |changes|
    requires Good(env, renames, was, changes, k, before, w) && v == Further(w, changes[k], draws) && v.Walk?
    ensures Good(env, renames, was, changes, k + 1, sigma, v)
  {
    sigma := FurtherProgress(env, renames, was, changes, draws, k, w, before);
  }

  lemma {:induction false} ChainProgress(env: Env, renames: Renames, was: Db, changes: seq<Change>, draws: seq<string>,
        ws: seq<Walk>, k: nat)
      returns (sigma: map<string, string>)
    requires Planned(env, renames, was, changes, draws) && Chain(was, changes, draws, ws) && k < |ws|
    ensures Good(env, renames, was, changes, k, sigma, ws[k])
  {
    if k == 0 {
      sigma := GoodStart(env, renames, was, changes, draws);
    } else {
      var before := ChainProgress(env, renames, was, changes, draws, ws, k - 1);
      assert Link(changes, draws, ws, k - 1);
      sigma := GoodFurther(env, renames, was, changes, draws, k - 1, ws[k - 1], before, ws[k]);
    }
  }

  lemma SmoothFurther(env: Env, renames: Renames, was: Db, changes: seq<Change>, draws: seq<string>, k: nat, w: Walk,
        sigma: map<string, string>)
    requires RowsFit(env, renames, was.tacs) && Lists(env, renames, was.tacs, changes) && k < |changes|
             && Smooth(env, renames, was, changes, draws)
    requires w.Walk? && Progress(env, renames, was, w.db, changes, k, sigma, w.made) && w.next == k
             && InStep(w.made, draws, k)
    ensures var v := Further(w, changes[k], draws); v.Walk? && v.next == k + 1 && InStep(v.made, draws, k + 1)
  {
    var ids := Ids(w.db.tacs);
    assert draws[k] !in ids && !KeyTaken(w.db.tacs, changes[k]) && !LegacyTaken(w.db.legacy, changes[k], draws[k]) by {
      SmoothStep(env, renames, was, w.db, changes, k, sigma, w.made, draws);
    }
    FreeHere(w, changes[k], draws, k);
  }

  /** With nothing in the way, the next draw is taken. */
  lemma FreeHere(w: Walk, c: Change, draws: seq<string>, k: nat)
    requires w.Walk? && w.next == k < |draws| && InStep(w.made, draws, k)
    requires draws[k] !in Ids(w.db.tacs) && !KeyTaken(w.db.tacs, c) && !LegacyTaken(w.db.legacy, c, draws[k])
    ensures var v := Further(w, c, draws); v.Walk? && v.next == k + 1 && InStep(v.made, draws, k + 1)
  {
    assert FirstFree(Ids(w.db.tacs), draws, k) == k;
  }

  lemma {:induction false} SmoothChain(env: Env, renames: Renames, was: Db, changes: seq<Change>, draws: seq<string>,
        ws: seq<Walk>, k: nat)
    requires Planned(env, renames, was, changes, draws) && Chain(was, changes, draws, ws) && k < |ws|
             && Smooth(env, renames, was, changes, draws)
    ensures ws[k].Walk? && ws[k].next == k && InStep(ws[k].made, draws, k)
  {
    if k == 0 {
      assert ws[0] == Walk(was, 0, []);
    } else {
      SmoothChain(env, renames, was, changes, draws, ws, k - 1);
      SmoothLink(env, renames, was, changes, draws, ws, k - 1);
    }
  }

  lemma SmoothLink(env: Env, renames: Renames, was: Db, changes: seq<Change>, draws: seq<string>, ws: seq<Walk>, k: nat)
    requires Planned(env, renames, was, changes, draws) && Chain(was, changes, draws, ws) && k + 1 < |ws|
             && Smooth(env, renames, was, changes, draws)
    requires ws[k].Walk? && ws[k].next == k && InStep(ws[k].made, draws, k)
    ensures ws[k + 1].Walk? && ws[k + 1].next == k + 1 && InStep(ws[k + 1].made, draws, k + 1)
  {
    assert Link(changes, draws, ws, k);
    var sigma := ChainProgress(env, renames, was, changes, draws, ws, k);
    SmoothFurther(env, renames, was, changes, draws, k, ws[k], sigma);
  }

  /** On a ready ledger nothing stops the loop. */
  lemma SmoothGoesOn(env: Env, renames: Renames, was: Db, changes: seq<Change>, draws: seq<string>, ws: seq<Walk>)
    requires Planned(env, renames, was, changes, draws) && Chain(was, changes, draws, ws) && |ws| <= |changes|
             && Smooth(env, renames, was, changes, draws)
    ensures Further(ws[|ws| - 1], changes[|ws| - 1], draws).Walk?
  {
    var k := |ws| - 1;
    SmoothChain(env, renames, was, changes, draws, ws, k);
    var sigma := ChainProgress(env, renames, was, changes, draws, ws, k);
    SmoothFurther(env, renames, was, changes, draws, k, ws[k], sigma);
  }

  ghost predicate Apart(tacs: seq<Row>) {
    !SharedKey(tacs) && forall i, j :: 0 <= i < j < |tacs| ==> tacs[i].id != tacs[j].id
  }

  lemma SetTacsApart(tacs: seq<Row>, c: Change, id: string)
    requires Apart(tacs) && !KeyTaken(tacs, c) && id !in Ids(tacs)
    ensures Apart(SetTacs(tacs, c, id))
  {
    var out := SetTacs(tacs, c, id);
    assert forall i :: 0 <= i < |tacs| ==> tacs[i] in tacs;
    forall i, j | 0 <= i < j < |out| ensures out[i].id != out[j].id && !(out[i].key.Some? && out[i].key == out[j].key) {
      assert tacs[i].id != tacs[j].id;
    }
  }

  /** The unique index on the keys holds after every change. */
  lemma {:induction false} KeysStayUnique(was: Db, changes: seq<Change>, draws: seq<string>, ws: seq<Walk>, k: nat)
    requires Chain(was, changes, draws, ws) && k < |ws| && Apart(was.tacs)
    ensures ws[k].Walk? && Apart(ws[k].db.tacs)
  {
    if k > 0 {
      KeysStayUnique(was, changes, draws, ws, k - 1);
      assert Link(changes, draws, ws, k - 1);
      var w := ws[k - 1];
      SetTacsApart(w.db.tacs, changes[k - 1], draws[FirstFree(Ids(w.db.tacs), draws, w.next)]);
    }
  }

  lemma ChainMore(was: Db, changes: seq<Change>, draws: seq<string>, ws: seq<Walk>, w: Walk)
    requires Chain(was, changes, draws, ws) && |ws| <= |changes|
    requires w.Walk? && w == Further(ws[|ws| - 1], changes[|ws| - 1], draws)
    ensures Chain(was, changes, draws, ws + [w])
  {
    var more := ws + [w];
    forall k: nat | k + 1 < |more| ensures Link(changes, draws, more, k) {
      if k + 1 < |ws| { assert Link(changes, draws, ws, k); }
    }
  }

  class Migration {
    var tacs: seq<Row>
    var members: seq<(string, string)>
    var mail: seq<Option<string>>
    var links: seq<(string, string)>
    var legacy: seq<(string, string)>
    var deliveries: seq<Mailing>

    function Abs(): Db
      reads this
    {
      Db(tacs, members, mail, links, legacy, deliveries)
    }

    /** plan, which blocks on any issue it meets. `strange`: a tac column this tool does not know. */
    method Plan(env: Env, renames: Renames, strange: bool) returns (r: Option<seq<Change>>)
      ensures r.Some? <==> !strange && Plannable(env, renames, Abs())
      ensures r.Some? ==> r.value == Changes(env, renames, tacs) && Proposes(env, renames, tacs, r.value)
    {
      if strange { return None; }
      var issues, keys: set<string>, changes: seq<Change>, i := 0, {}, [], 0;
      while i < |tacs|
        invariant i <= |tacs| && issues >= 0
        invariant issues == 0 <==> RowsFit(env, renames, tacs[..i])
        invariant issues == 0 ==> changes == Changes(env, renames, tacs[..i])
        invariant issues == 0 ==> keys == Keys(env, renames, tacs[..i])
      {
        var row := tacs[i];
        PlanMore(env, renames, tacs, i);
        if !env.nameOk(Candidate(renames, row)) {
          issues := issues + 1;
        } else {
          var key := env.fold(env.strip(Candidate(renames, row)));
          if key in keys {
            issues := issues + 1;
          } else {
            keys := keys + {key};
          }
          if Done(row) {
            if row.key != Some(key) {
              issues := issues + 1;
            }
          } else {
            changes := changes + [Change(row.id, env.strip(Candidate(renames, row)), key)];
          }
        }
        i := i + 1;
      }
      assert tacs[..i] == tacs;
      if issues > 0 || !Resolves(Abs()) {
        return None;
      }
      ChangesAreNeeded(env, renames, tacs);
      return Some(changes);
    }

    /** new_id, drawn again while the id is already some tac's. */
    method Mint(draws: seq<string>, start: nat) returns (found: nat)
      requires start <= |draws|
      ensures found == FirstFree(Ids(tacs), draws, start)
    {
      found := start;
      while found < |draws| && draws[found] in Ids(tacs)
        invariant start <= found <= |draws|
        invariant FirstFree(Ids(tacs), draws, start) == FirstFree(Ids(tacs), draws, found)
      {
        found := found + 1;
      }
    }

    /** The statements for one tac; false when a unique constraint refuses one of them. */
    method ConvertOne(c: Change, id: string) returns (ok: bool)
      modifies this
      ensures ok <==> !KeyTaken(old(tacs), c) && !LegacyTaken(old(legacy), c, id)
      ensures ok ==> Abs() == Converted(old(Abs()), c, id)
    {
      if KeyTaken(tacs, c) { return false; }
      tacs := SetTacs(tacs, c, id);
      members := SubFirst(map[c.oldId := id], members);
      mail := SubMail(map[c.oldId := id], mail);
      links := SubFirst(map[c.oldId := id], links);
      links := SubSecond(map[c.oldId := id], links);
      if LegacyTaken(legacy, c, id) { return false; }
      legacy := legacy + [(c.oldId, id)];
      return true;
    }

    /** One turn of the loop. */
    method ConvertNext(c: Change, draws: seq<string>, start: nat, ghost made: seq<(string, string)>)
        returns (found: nat, ok: bool)
      requires start <= |draws|
      modifies this
      ensures var w := Further(Walk(old(Abs()), start, made), c, draws);
              && (ok <==> w.Walk?)
              && (ok ==> found < |draws| && w == Walk(Abs(), found + 1, made + [(c.oldId, draws[found])]))
    {
      found := Mint(draws, start);
      if found == |draws| {
        return found, false;
      }
      ok := ConvertOne(c, draws[found]);
    }

    /** Every change in turn, stopping at the first that cannot be made. */
    method ConvertAll(changes: seq<Change>, draws: seq<string>)
        returns (made: Option<seq<(string, string)>>, ghost ws: seq<Walk>)
      modifies this
      ensures Chain(old(Abs()), changes, draws, ws)
      ensures made.Some? ==> |ws| == |changes| + 1 && ws[|changes|].Walk? && Abs() == ws[|changes|].db
                             && made.value == ws[|changes|].made
      ensures made.None? ==> |ws| <= |changes| && Further(ws[|ws| - 1], changes[|ws| - 1], draws).Stuck?
    {
      ghost var was := Abs();
      var out: seq<(string, string)>, k, next := [], 0, 0;
      ws := [Walk(Abs(), next, out)];
      while k < |changes|
        invariant k <= |changes| && next <= |draws|
        invariant Chain(was, changes, draws, ws) && |ws| == k + 1 && ws[k] == Walk(Abs(), next, out)
      {
        var found, ok := ConvertNext(changes[k], draws, next, out);
        if !ok {
          return None, ws;
        }
        out := out + [(changes[k].oldId, draws[found])];
        next := found + 1;
        ChainMore(was, changes, draws, ws, Walk(Abs(), next, out));
        ws := ws + [Walk(Abs(), next, out)];
        k := k + 1;
      }
      made := Some(out);
    }

    /** The second plan, key_mismatches and foreign_key_check. `broken`: a violation elsewhere. */
    method Checks(env: Env, renames: Renames, strange: bool, broken: bool) returns (ok: bool)
      requires !SharedKey(tacs)
      ensures ok <==> !strange && !broken && Settled(env, renames, Abs())
    {
      var again := Plan(env, renames, strange);
      ok := again.Some? && again.value == [] && !Stale(env, tacs) && LegacyResolves(Abs()) && !broken;
    }

    method Restore(was: Db)
      modifies this
      ensures Abs() == was
    {
      tacs, members, mail, links, legacy := was.tacs, was.members, was.mail, was.links, was.legacy;
      deliveries := was.deliveries;
    }

    /** convert: all of it, or nothing. The unique index on the keys is created before the loop
        and holds after it. */
    method Convert(env: Env, renames: Renames, draws: seq<string>, strange: bool, broken: bool)
      returns (r: Option<seq<(string, string)>>, ghost sigma: map<string, string>)
      requires Keyed(Abs()) && forall d :: d in draws ==> IsCanonicalUuid(d)
      modifies this
      ensures r.None? ==> Abs() == old(Abs())
      ensures r.Some? ==> Plannable(env, renames, old(Abs()))
                          && Meaning(env, renames, old(Abs()), Abs(), sigma, r.value)
      ensures r.Some? ==> Settled(env, renames, Abs()) && Keyed(Abs())
      ensures Settled(env, renames, old(Abs())) && !strange && !broken ==> r == Some([]) && Abs() == old(Abs())
      ensures r.Some? ==> Ready(env, renames, old(Abs()))
      ensures Plannable(env, renames, old(Abs())) && Starting(env, renames, old(Abs()), draws) && !strange && !broken
              ==> r.Some?
    {
      var was := Abs();
      sigma := map[];
      var p := Plan(env, renames, strange);
      if p.None? || SharedKey(tacs) {
        return None, sigma;
      }
      ChangesAre(env, renames, tacs);
      var made;
      ghost var ws;
      made, ws := ConvertAll(p.value, draws);
      sigma := Conclude(env, renames, was, p.value, draws, ws, made.Some?);
      if made.Some? {
        var ok := Checks(env, renames, strange, broken);
        if ok {
          return made, sigma;
        }
      }
      Restore(was);
      r := None;
    }
  }

  /** A ready ledger, with enough good ids to hand. */
  ghost predicate Starting(env: Env, renames: Renames, was: Db, draws: seq<string>) {
    Ready(env, renames, was) && GoodDraws(draws, was) && StripSettles(env)
  }

  /** What the loop's walk comes to. */
  lemma Conclude(env: Env, renames: Renames, was: Db, changes: seq<Change>, draws: seq<string>, ws: seq<Walk>,
        all: bool)
      returns (sigma: map<string, string>)
    requires Planned(env, renames, was, changes, draws) && changes == Changes(env, renames, was.tacs)
             && Chain(was, changes, draws, ws)
    requires !SharedKey(was.tacs)
    requires if all then |ws| == |changes| + 1 else |ws| <= |changes|
                                                    && Further(ws[|ws| - 1], changes[|ws| - 1], draws).Stuck?
    ensures all ==> var w := ws[|changes|];
              w.Walk? && Meaning(env, renames, was, w.db, sigma, w.made) && Keyed(w.db) && !SharedKey(w.db.tacs)
              && (Starting(env, renames, was, draws) ==> Settled(env, renames, w.db))
              && (Settled(env, renames, w.db) ==> Ready(env, renames, was))
    ensures Starting(env, renames, was, draws) ==> all
  {
    NoMoreChangesThanRows(env, renames, was.tacs);
    if all {
      sigma := ChainProgress(env, renames, was, changes, draws, ws, |changes|);
      var w := ws[|changes|];
      FinishedMeans(env, renames, was, w.db, changes, sigma, w.made);
      StaysKeyed(env, renames, was, w.db, sigma, w.made);
      KeysStayUnique(was, changes, draws, ws, |changes|);
      if Starting(env, renames, was, draws) { ReadySettles(env, renames, was, w.db, sigma, w.made); }
      if Settled(env, renames, w.db) { WasReady(env, renames, was, draws, ws, sigma); }
    } else {
      sigma := map[];
      if Smooth(env, renames, was, changes, draws) { SmoothGoesOn(env, renames, was, changes, draws, ws); }
    }
  }

  /** Nothing can get in the way of these changes. */
  ghost predicate Smooth(env: Env, renames: Renames, was: Db, changes: seq<Change>, draws: seq<string>) {
    && Keyed(was) && Ready(env, renames, was) && GoodDraws(draws, was)
    && changes == Changes(env, renames, was.tacs) && |changes| <= |draws|
  }

  ghost predicate InStep(out: seq<(string, string)>, draws: seq<string>, k: nat) {
    k <= |draws| && |out| == k && forall j :: 0 <= j < k ==> out[j].1 == draws[j]
  }

  lemma SmoothStep(env: Env, renames: Renames, was: Db, db: Db, changes: seq<Change>, k: nat,
        sigma: map<string, string>, out: seq<(string, string)>, draws: seq<string>)
    requires RowsFit(env, renames, was.tacs) && Lists(env, renames, was.tacs, changes) && k < |changes|
    requires Progress(env, renames, was, db, changes, k, sigma, out) && Smooth(env, renames, was, changes, draws)
             && InStep(out, draws, k)
    ensures draws[k] !in Ids(db.tacs) && !KeyTaken(db.tacs, changes[k]) && !LegacyTaken(db.legacy, changes[k], draws[k])
  {
    var tacs := SubTacs(env, renames, sigma, was.tacs);
    assert db.tacs == tacs && db.legacy == was.legacy + out;
    assert draws[k] !in Ids(tacs) by { NextDrawIsFree(env, renames, was, changes, k, sigma, out, draws); }
    assert !LegacyTaken(was.legacy + out, changes[k], draws[k]) by {
      NoLegacyTaken(env, renames, was, changes, k, sigma, out, draws[k]);
      assert draws[k] in draws;
      RecordGivesWay(env, renames, was, changes, k, out, draws[k]);
    }
    assert !KeyTaken(tacs, changes[k]) by { KeyGivesWay(env, renames, was, changes, k, sigma, out); }
  }

  lemma RecordGivesWay(env: Env, renames: Renames, was: Db, changes: seq<Change>, k: nat, out: seq<(string, string)>,
        id: string)
    requires LegacyGivesWay(was) && Lists(env, renames, was.tacs, changes) && k < |changes|
    requires (forall p :: p in was.legacy ==> p.1 != id) && !LegacyTaken(out, changes[k], id)
    ensures !LegacyTaken(was.legacy + out, changes[k], id)
  {
    assert changes[k] in changes;
    var r :| r in was.tacs && !Done(r) && changes[k] == ChangeOf(env, renames, r);
  }

  lemma KeyGivesWay(env: Env, renames: Renames, was: Db, changes: seq<Change>, k: nat, sigma: map<string, string>,
        out: seq<(string, string)>)
    requires Keyed(was) && RowsFit(env, renames, was.tacs) && KeysGiveWay(env, renames, was.tacs)
    requires changes == Changes(env, renames, was.tacs) && k < |changes|
    requires sigma.Keys == Ids(was.tacs) && Moves(changes, k, sigma, out)
    ensures !KeyTaken(SubTacs(env, renames, sigma, was.tacs), changes[k])
  {
    var i := ChangeAt(env, renames, was.tacs, k);
    MovedSoFar(env, renames, was.tacs, k, i, sigma, out);
    KeyInTheWay(env, renames, was.tacs, sigma, i);
  }

  // ─── and only then ────────────────────────────────────────────

  lemma KeysGaveWay(env: Env, renames: Renames, was: Db, draws: seq<string>, ws: seq<Walk>)
    requires Planned(env, renames, was, Changes(env, renames, was.tacs), draws)
    requires Chain(was, Changes(env, renames, was.tacs), draws, ws) && |ws| == |Changes(env, renames, was.tacs)| + 1
    ensures KeysGiveWay(env, renames, was.tacs)
  {
    forall i, j | 0 <= i < j < |was.tacs| && !Done(was.tacs[i]) && !Done(was.tacs[j])
      ensures was.tacs[j].key != Some(NewKey(env, renames, was.tacs[i]))
    {
      NoKeyInTheWay(env, renames, was, draws, ws, i);
    }
  }

  lemma NoKeyInTheWay(env: Env, renames: Renames, was: Db, draws: seq<string>, ws: seq<Walk>, i: nat)
    requires Planned(env, renames, was, Changes(env, renames, was.tacs), draws)
    requires Chain(was, Changes(env, renames, was.tacs), draws, ws) && |ws| == |Changes(env, renames, was.tacs)| + 1
    requires i < |was.tacs| && !Done(was.tacs[i])
    ensures forall j :: i < j < |was.tacs| && !Done(was.tacs[j])
                        ==> was.tacs[j].key != Some(NewKey(env, renames, was.tacs[i]))
  {
    var changes := Changes(env, renames, was.tacs);
    var k := ChangeOfRow(env, renames, was.tacs, i);
    var sigma := ChainProgress(env, renames, was, changes, draws, ws, k);
    assert Link(changes, draws, ws, k);
    assert !KeyTaken(SubTacs(env, renames, sigma, was.tacs), changes[k]);
    MovedSoFar(env, renames, was.tacs, k, i, sigma, ws[k].made);
    KeyInTheWay(env, renames, was.tacs, sigma, i);
  }

  lemma RecordGaveWay(env: Env, renames: Renames, was: Db, db: Db, sigma: map<string, string>,
        made: seq<(string, string)>)
    requires Meaning(env, renames, was, db, sigma, made) && LegacyKeyed(db.legacy) && LegacyResolves(db)
    ensures LegacyGivesWay(was)
  {
    forall p, q | p in was.legacy && q in made ensures p.0 != q.0 && p.1 != q.1 {
      ApartInBoth(was.legacy, made, p, q);
    }
    forall p, r | p in was.legacy && r in was.tacs && !Done(r) ensures p.0 != r.id {
      assert (r.id, sigma[r.id]) in made;
    }
    forall p | p in was.legacy ensures exists r :: r in was.tacs && Done(r) && r.id == p.1 {
      assert p in db.legacy;
      MintedIsDone(env, renames, was, db, sigma, made, p);
    }
  }

  /** An id that was on record before and is some tac's afterwards was a converted tac's. */
  lemma MintedIsDone(env: Env, renames: Renames, was: Db, db: Db, sigma: map<string, string>,
        made: seq<(string, string)>, p: (string, string))
    requires Meaning(env, renames, was, db, sigma, made) && p.1 in Ids(db.tacs)
    requires forall q :: q in made ==> p.1 != q.1
    ensures exists r :: r in was.tacs && Done(r) && r.id == p.1
  {
    assert p.1 in sigma.Values;
    var x :| x in sigma && sigma[x] == p.1;
    var r :| r in was.tacs && r.id == x;
    assert sigma[x] != x ==> (x, p.1) in made;
  }

  lemma ApartInBoth(ps: seq<(string, string)>, qs: seq<(string, string)>, p: (string, string), q: (string, string))
    requires LegacyKeyed(ps + qs) && p in ps && q in qs
    ensures p.0 != q.0 && p.1 != q.1
  {
    var i :| 0 <= i < |ps| && ps[i] == p;
    var j :| 0 <= j < |qs| && qs[j] == q;
    assert (ps + qs)[i] == p && (ps + qs)[|ps| + j] == q;
  }

  lemma NamesWereSettled(env: Env, renames: Renames, was: Db, db: Db, sigma: map<string, string>,
        made: seq<(string, string)>)
    requires Meaning(env, renames, was, db, sigma, made) && !Stale(env, db.tacs)
    ensures NamesSettled(env, was.tacs)
  {
    forall r | r in was.tacs && Done(r) ensures r.key == Some(env.fold(r.name.value)) {
      var i :| 0 <= i < |was.tacs| && was.tacs[i] == r;
      assert db.tacs[i] == r && db.tacs[i] in db.tacs;
    }
  }

  /** A conversion that goes through was of a ledger that was ready for it. */
  lemma WasReady(env: Env, renames: Renames, was: Db, draws: seq<string>, ws: seq<Walk>, sigma: map<string, string>)
    requires Planned(env, renames, was, Changes(env, renames, was.tacs), draws) && !SharedKey(was.tacs)
    requires Chain(was, Changes(env, renames, was.tacs), draws, ws) && |ws| == |Changes(env, renames, was.tacs)| + 1
    requires var w := ws[|ws| - 1];
             w.Walk? && Meaning(env, renames, was, w.db, sigma, w.made) && LegacyKeyed(w.db.legacy)
             && Settled(env, renames, w.db)
    ensures Ready(env, renames, was)
  {
    var w := ws[|ws| - 1];
    KeysGaveWay(env, renames, was, draws, ws);
    RecordGaveWay(env, renames, was, w.db, sigma, w.made);
    NamesWereSettled(env, renames, was, w.db, sigma, w.made);
  }

  lemma StartsSame(env: Env, renames: Renames, was: Db, changes: seq<Change>, sigma: map<string, string>)
    requires Lists(env, renames, was.tacs, changes)
    requires sigma.Keys == Ids(was.tacs) && forall x :: x in sigma ==> sigma[x] == x
    ensures Progress(env, renames, was, was, changes, 0, sigma, [])
  {
    forall j | 0 <= j < |changes| ensures changes[j].oldId in sigma {
      assert changes[j] in changes;
    }
    var image := Image(env, renames, sigma, was);
    assert image.tacs == was.tacs && image.members == was.members && image.mail == was.mail && image.links == was.links;
    assert was.legacy + [] == was.legacy && image.deliveries == was.deliveries;
  }

  lemma StartsCovered(was: Db, sigma: map<string, string>)
    requires Resolves(was) && sigma.Keys == Ids(was.tacs)
    ensures Covers(sigma, was)
  {
  }

  function Keys(env: Env, renames: Renames, rows: seq<Row>): set<string> {
    set r | r in rows :: NewKey(env, renames, r)
  }

  /** One more row of the plan. */
  lemma PlanMore(env: Env, renames: Renames, tacs: seq<Row>, i: nat)
    requires i < |tacs|
    ensures var r := tacs[i];
            && (RowsFit(env, renames, tacs[..i + 1]) <==>
                  RowsFit(env, renames, tacs[..i]) && RowOk(env, renames, r)
                  && NewKey(env, renames, r) !in Keys(env, renames, tacs[..i]))
            && Keys(env, renames, tacs[..i + 1]) == Keys(env, renames, tacs[..i]) + {NewKey(env, renames, r)}
            && Changes(env, renames, tacs[..i + 1]) ==
                Changes(env, renames, tacs[..i]) + if Done(r) then [] else [ChangeOf(env, renames, r)]
  {
    assert tacs[..i + 1] == tacs[..i] + [tacs[i]] && tacs[..i + 1][..i] == tacs[..i];
    RowsFitMore(env, renames, tacs[..i], tacs[i]);
  }

  lemma RowsFitMore(env: Env, renames: Renames, rows: seq<Row>, r: Row)
    ensures RowsFit(env, renames, rows + [r]) <==>
              RowsFit(env, renames, rows) && RowOk(env, renames, r)
              && NewKey(env, renames, r) !in Keys(env, renames, rows)
  {
    var all := rows + [r];
    assert forall j :: 0 <= j < |rows| ==> all[j] == rows[j];
    if RowsFit(env, renames, all) {
      assert all[|rows|] == r && r in all;
      assert forall x :: x in rows ==> x in all;
      assert forall j :: 0 <= j < |rows| ==> NewKey(env, renames, all[j]) != NewKey(env, renames, all[|rows|]);
    }
  }
}
