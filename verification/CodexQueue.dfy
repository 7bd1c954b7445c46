/** Submitting a notification at most once, whatever crashes. */
module CodexQueue {
  import opened Tables
  import opened Identifiers
  import opened Registration
  import Trimming

  datatype Receipt = Pending | Queued(submission: string) | Unknown

  /** (thread id, notification id): the primary key of the receipt journal. */
  type Key = (string, string)

  datatype Answer = Invalid | Disabled | Said(receipt: Receipt)

  /** What came back from the queue command. */
  datatype Outcome = Raised | Exited(code: int, stdout: string)

  const HEAD := "Queued message "
  const MIDDLE := " for thread "

  function Confirmation(submission: string, target: string): string {
    HEAD + submission + MIDDLE + target + "."
  }

  /** What str.strip() drops. */
  predicate IsSpace(c: char) {
    var n := c as int;
    9 <= n <= 13 || 28 <= n <= 32 || n == 0x85 || n == 0xa0 || n == 0x1680 || 0x2000 <= n <= 0x200a
    || n == 0x2028 || n == 0x2029 || n == 0x202f || n == 0x205f || n == 0x3000
  }

  /** The one success line, with any white space around it; anything else is treated as not knowing. */
  function Parse(target: string, r: Outcome): Receipt {
    if r.Raised? || r.code != 0 then Unknown
    else
      var line := Trimming.Strip(IsSpace, r.stdout);
      if |line| < |HEAD| + 36 then Unknown
      else
        var submission := line[|HEAD|..|HEAD| + 36];
        if IsCanonicalUuid(submission) && line == Confirmation(submission, target) then Queued(submission) else Unknown
  }

  /** Exactly the outcomes that prove acceptance count as queued, under the id they name. */
  lemma QueuedExactly(target: string, r: Outcome, submission: string)
    ensures Parse(target, r) == Queued(submission) <==>
              && r.Exited? && r.code == 0 && IsCanonicalUuid(submission)
              && Trimming.Strip(IsSpace, r.stdout) == "Queued message " + submission + " for thread " + target + "."
    ensures !Parse(target, r).Pending?
  {
    if IsCanonicalUuid(submission) {
      assert Confirmation(submission, target)[|HEAD|..|HEAD| + 36] == submission;
    }
  }

  /** Tabs, line and page breaks, the four separators, and the blanks of every width. */
  lemma SpacesAre(c: char)
    ensures IsSpace(c) <==>
              c as int in {9, 10, 11, 12, 13, 28, 29, 30, 31, 32, 133, 160, 5760, 8192, 8193, 8194, 8195, 8196, 8197,
                           8198, 8199, 8200, 8201, 8202, 8232, 8233, 8239, 8287, 12288}
  {
  }

  /** So the line is recognised with a newline after it, and whatever other white space around it. */
  lemma ParseExactly(target: string, submission: string, before: string, after: string)
    requires IsCanonicalUuid(submission) && Trimming.All(IsSpace, before) && Trimming.All(IsSpace, after)
    ensures Parse(target, Exited(0, before + Confirmation(submission, target) + after)) == Queued(submission)
  {
    var line := Confirmation(submission, target);
    assert line[0] == 'Q' && line[|line| - 1] == '.';
    Trimming.StripIs(IsSpace, before, line, after, before + line + after);
    QueuedExactly(target, Exited(0, before + line + after), submission);
  }

  /** A row another call left PENDING may or may not have been submitted. */
  function Shown(r: Receipt): Receipt {
    if r.Pending? then Unknown else r
  }

  /** What one undisturbed call answers, leaves behind, and whether it starts the command. */
  datatype Called = Called(answer: Answer, rows: map<Key, Receipt>, starts: bool)

  predicate Acceptable(target: string, id: string, message: string) {
    IsCanonicalUuid(target) && id != "" && message != "" && '\0' !in message
  }

  function Call(rows: map<Key, Receipt>, target: string, id: string, message: string, autoEnter: Flag,
        r: Outcome): Called
  {
    var key := (target, id);
    if !Acceptable(target, id, message) then Called(Invalid, rows, false)
    else if autoEnter != On then Called(Disabled, rows, false)
    else if key in rows then Called(Said(Shown(rows[key])), rows, false)
    else Called(Said(Parse(target, r)), rows[key := Parse(target, r)], true)
  }

  class QueueDelivery {
    var receipts: map<Key, Receipt>
    /** The commands that were started, oldest first. */
    ghost var started: seq<Key>

    constructor ()
      ensures receipts == map[] && started == []
    {
      receipts := map[];
      started := [];
    }

    /** deliver, with the command's outcome as an input that is used only if it is started. */
    method Deliver(target: string, id: string, message: string, autoEnter: Flag, r: Outcome) returns (answer: Answer)
      modifies this
      ensures var c := Call(old(receipts), target, id, message, autoEnter, r);
              answer == c.answer && receipts == c.rows
              && started == old(started) + if c.starts then [(target, id)] else []
      ensures answer.Invalid? <==> !IsCanonicalUuid(target) || id == "" || message == "" || '\0' in message
      ensures answer.Said? <==> !answer.Invalid? && autoEnter == On
      ensures |started| > |old(started)| <==> answer.Said? && (target, id) !in old(receipts)
    {
      if !IsCanonicalUuid(target) || id == "" || message == "" || '\0' in message {
        return Invalid;
      }
      if autoEnter != On {
        return Disabled;
      }
      var key := (target, id);
      if key in receipts {
        return Said(Shown(receipts[key]));
      }
      receipts := receipts[key := Pending];
      started := started + [key];
      var state := Parse(target, r);
      receipts := receipts[key := state];
      return Said(state);
    }
  }

  // ─── many processes, crashes anywhere ─────────────────────────

  /** Where one process is inside deliver. */
  datatype Phase =
    | Idle
    | Begun(key: Key)                      // holds the write lock
    | Inserting(key: Key)                  // holds the write lock, its insert not yet committed
    | Ready(key: Key)                      // the PENDING row is committed, the command not started
    | Ran(key: Key, result: Receipt)       // the command was started; the row is not updated yet

  datatype Journal = Journal(
    rows: map<Key, Receipt>,
    lock: Option<nat>,
    phases: map<nat, Phase>,
    started: seq<Key>,
    answers: seq<(Key, Receipt)>
  )

  datatype Act =
    | Begin(p: nat, key: Key)
    | Look(p: nat)
    | Commit(p: nat)
    | Run(p: nat, r: Outcome)
    | Update(p: nat)
    | Crash(p: nat)                        // or an exception: the transaction, if any, rolls back

  const QUIET := Journal(map[], None, map[], [], [])

  function At(j: Journal, p: nat): Phase {
    if p in j.phases then j.phases[p] else Idle
  }

  predicate Allowed(j: Journal, a: Act) {
    match a
    case Begin(p, _) => At(j, p).Idle? && j.lock.None?
    case Look(p) => At(j, p).Begun?
    case Commit(p) => At(j, p).Inserting?
    case Run(p, _) => At(j, p).Ready?
    case Update(p) => At(j, p).Ran? && j.lock.None?
    case Crash(_) => true
  }

  function Take(j: Journal, a: Act): Journal
    requires Allowed(j, a)
  {
    match a
    case Begin(p, key) => j.(lock := Some(p), phases := j.phases[p := Begun(key)])
    case Look(p) =>
      var key := At(j, p).key;
      if key in j.rows
      then j.(lock := None, phases := j.phases[p := Idle], answers := j.answers + [(key, Shown(j.rows[key]))])
      else j.(phases := j.phases[p := Inserting(key)])
    case Commit(p) =>
      var key := At(j, p).key;
      j.(rows := j.rows[key := Pending], lock := None, phases := j.phases[p := Ready(key)])
    case Run(p, r) =>
      var key := At(j, p).key;
      j.(phases := j.phases[p := Ran(key, Parse(key.0, r))], started := j.started + [key])
    case Update(p) =>
      var key, result := At(j, p).key, At(j, p).result;
      j.(rows := j.rows[key := result], phases := j.phases[p := Idle], answers := j.answers + [(key, result)])
    case Crash(p) =>
      j.(lock := if j.lock == Some(p) then None else j.lock, phases := j.phases[p := Idle])
  }

  /** An undisturbed call of one process that finds no receipt is the call of the class. */
  lemma UndisturbedCall(j: Journal, p: nat, key: Key, message: string, r: Outcome)
    requires At(j, p).Idle? && j.lock.None? && key !in j.rows && Acceptable(key.0, key.1, message)
    ensures var a := Take(j, Begin(p, key));
            Allowed(a, Look(p)) &&
            var b := Take(a, Look(p));
            Allowed(b, Commit(p)) &&
            var c := Take(b, Commit(p));
            Allowed(c, Run(p, r)) &&
            var d := Take(c, Run(p, r));
            Allowed(d, Update(p)) &&
            var e, call := Take(d, Update(p)), Call(j.rows, key.0, key.1, message, On, r);
            && call.starts && e.rows == call.rows && e.started == j.started + [key]
            && e.lock.None? && At(e, p).Idle? && e.answers == j.answers + [(key, call.answer.receipt)]
  {
    var c := Take(Take(Take(j, Begin(p, key)), Look(p)), Commit(p));
    assert c.rows == j.rows[key := Pending] && At(c, p) == Ready(key);
    var d := Take(c, Run(p, r));
    assert At(d, p) == Ran(key, Parse(key.0, r));
  }

  /** So is one that finds a receipt, which starts nothing. */
  lemma KnownCall(j: Journal, p: nat, key: Key, message: string, r: Outcome)
    requires At(j, p).Idle? && j.lock.None? && key in j.rows && Acceptable(key.0, key.1, message)
    ensures var a := Take(j, Begin(p, key));
            Allowed(a, Look(p)) &&
            var b, call := Take(a, Look(p)), Call(j.rows, key.0, key.1, message, On, r);
            && !call.starts && b.rows == call.rows == j.rows && b.started == j.started
            && b.lock.None? && At(b, p).Idle? && b.answers == j.answers + [(key, call.answer.receipt)]
  {
  }

  predicate Responsible(ph: Phase, key: Key) {
    (ph.Ready? || ph.Ran?) && ph.key == key
  }

  ghost predicate Locked(j: Journal) {
    forall p: nat :: (j.lock == Some(p) <==> At(j, p).Begun? || At(j, p).Inserting?)
                && (At(j, p).Inserting? ==> At(j, p).key !in j.rows)
  }

  /** Only one process is ever responsible for a key, its row is PENDING, and it is the only one
      that may still start the command. */
  ghost predicate OneResponsible(j: Journal) {
    && (forall p, q, key :: Responsible(At(j, p), key) && Responsible(At(j, q), key) ==> p == q)
    && (forall p, key :: Responsible(At(j, p), key) ==> key in j.rows && j.rows[key].Pending?)
    && (forall p :: At(j, p).Ran? ==> !At(j, p).result.Pending?)
    && (forall p :: At(j, p).Ready? ==> multiset(j.started)[At(j, p).key] == 0)
  }

  ghost predicate AtMostOnce(j: Journal) {
    && (forall key :: multiset(j.started)[key] <= 1)
    && (forall key :: key in j.started ==> key in j.rows)
  }

  /** A stored or answered QUEUED is the row's value for good. */
  ghost predicate AnswersHold(j: Journal) {
    && (forall i :: 0 <= i < |j.answers| ==> !j.answers[i].1.Pending?)
    && (forall i :: 0 <= i < |j.answers| && j.answers[i].1.Queued?
                    ==> j.answers[i].0 in j.rows && j.rows[j.answers[i].0] == j.answers[i].1)
  }

  /** Once a QUEUED has been answered for a key, every later answer for it is the same. */
  ghost predicate AnswersStable(j: Journal) {
    forall i, k :: 0 <= i < k < |j.answers| && j.answers[i].0 == j.answers[k].0 && j.answers[i].1.Queued?
                   ==> j.answers[k] == j.answers[i]
  }

  ghost predicate JournalInv(j: Journal) {
    Locked(j) && OneResponsible(j) && AtMostOnce(j) && AnswersHold(j) && AnswersStable(j)
  }

  lemma ActKeepsLocked(j: Journal, a: Act)
    requires Allowed(j, a) && Locked(j) && OneResponsible(j)
    ensures Locked(Take(j, a))
  {
  }

  lemma ActKeepsReadyUnstarted(j: Journal, a: Act)
    requires Allowed(j, a) && Locked(j) && OneResponsible(j) && AtMostOnce(j)
    ensures var k := Take(j, a); forall p :: At(k, p).Ready? ==> multiset(k.started)[At(k, p).key] == 0
  {
    var k := Take(j, a);
    assert forall p :: p != a.p ==> At(k, p) == At(j, p);
    if a.Commit? {
      assert At(j, a.p).key !in j.started;
    }
    forall p | At(k, p).Ready? ensures multiset(k.started)[At(k, p).key] == 0 {
      if a.Run? {
        var mine := At(j, a.p).key;
        assert Responsible(At(j, a.p), mine) && Responsible(At(j, p), At(j, p).key);
        assert multiset(k.started) == multiset(j.started) + multiset{mine};
      }
    }
  }

  lemma ActKeepsOneResponsible(j: Journal, a: Act)
    requires Allowed(j, a) && Locked(j) && OneResponsible(j) && AtMostOnce(j)
    ensures OneResponsible(Take(j, a))
  {
    ActKeepsReadyUnstarted(j, a);
    ActKeepsResponsibleUnique(j, a);
    assert forall p :: p != a.p ==> At(Take(j, a), p) == At(j, p);
  }

  lemma ActKeepsResponsibleUnique(j: Journal, a: Act)
    requires Allowed(j, a) && Locked(j) && OneResponsible(j)
    ensures var k := Take(j, a); forall p, q, key :: Responsible(At(k, p), key) && Responsible(At(k, q), key) ==> p == q
  {
    var k := Take(j, a);
    assert forall p :: p != a.p ==> At(k, p) == At(j, p);
    if a.Commit? {
      assert forall p :: !Responsible(At(j, p), At(j, a.p).key);
    }
  }

  lemma ActKeepsAtMostOnce(j: Journal, a: Act)
    requires Allowed(j, a) && OneResponsible(j) && AtMostOnce(j)
    ensures AtMostOnce(Take(j, a))
  {
    if a.Run? {
      assert Responsible(At(j, a.p), At(j, a.p).key);
    }
  }

  /** A row is only ever added as PENDING or moved from PENDING to a final value. */
  lemma RowsMoveForward(j: Journal, a: Act, key: Key)
    requires Allowed(j, a) && Locked(j) && OneResponsible(j)
    ensures key in j.rows ==> key in Take(j, a).rows
                              && (Take(j, a).rows[key] == j.rows[key]
                                  || (j.rows[key].Pending? && !Take(j, a).rows[key].Pending?))
    ensures key !in j.rows && key in Take(j, a).rows ==> Take(j, a).rows[key].Pending?
  {
    if a.Update? {
      assert Responsible(At(j, a.p), At(j, a.p).key);
    }
  }

  lemma ActKeepsAnswers(j: Journal, a: Act)
    requires Allowed(j, a) && Locked(j) && OneResponsible(j) && AnswersHold(j) && AnswersStable(j)
    ensures AnswersHold(Take(j, a)) && AnswersStable(Take(j, a))
  {
    if a.Update? {
      assert Responsible(At(j, a.p), At(j, a.p).key);
    }
  }

  lemma ActKeepsInv(j: Journal, a: Act)
    requires Allowed(j, a) && JournalInv(j)
    ensures JournalInv(Take(j, a))
  {
    ActKeepsLocked(j, a);
    ActKeepsOneResponsible(j, a);
    ActKeepsAtMostOnce(j, a);
    ActKeepsAnswers(j, a);
  }

  ghost predicate IsHistory(js: seq<Journal>, acts: seq<Act>) {
    && |js| == |acts| + 1
    && js[0] == QUIET
    && forall k: nat :: k < |acts| ==> ActAt(js, acts, k)
  }

  ghost predicate ActAt(js: seq<Journal>, acts: seq<Act>, k: nat)
    requires k < |acts| && |js| == |acts| + 1
  {
    Allowed(js[k], acts[k]) && js[k + 1] == Take(js[k], acts[k])
  }

  /** In every history of any number of processes, crashing wherever they like: each command is
      started at most once per (thread, notification), never before its receipt row is committed,
      and an answer QUEUED is the answer for ever. */
  lemma {:induction false} SubmittedAtMostOnce(js: seq<Journal>, acts: seq<Act>, k: nat)
    requires IsHistory(js, acts) && k < |js|
    ensures JournalInv(js[k])
  {
    if k > 0 {
      SubmittedAtMostOnce(js, acts, k - 1);
      assert ActAt(js, acts, k - 1);
      ActKeepsInv(js[k - 1], acts[k - 1]);
    }
  }

  /** The receipt row of a started command was committed before the step that started it. */
  lemma ReceiptComesFirst(js: seq<Journal>, acts: seq<Act>, k: nat, key: Key)
    requires IsHistory(js, acts) && k < |acts| && |js[k].started| < |js[k + 1].started|
             && js[k + 1].started == js[k].started + [key]
    ensures key in js[k].rows && js[k].rows[key].Pending? && key !in js[k].started
  {
    SubmittedAtMostOnce(js, acts, k);
    assert ActAt(js, acts, k);
    assert js[k + 1].started[|js[k].started|] == key;
    assert Responsible(At(js[k], acts[k].p), key);
  }

  /** A final row never changes again. */
  lemma {:induction false} FinalForEver(js: seq<Journal>, acts: seq<Act>, i: nat, k: nat, key: Key)
    requires IsHistory(js, acts) && i <= k < |js| && key in js[i].rows
    ensures key in js[k].rows && (!js[i].rows[key].Pending? ==> js[k].rows[key] == js[i].rows[key])
  {
    if i < k {
      FinalForEver(js, acts, i, k - 1, key);
      SubmittedAtMostOnce(js, acts, k - 1);
      assert ActAt(js, acts, k - 1);
      RowsMoveForward(js[k - 1], acts[k - 1], key);
    }
  }

  /** Step k starts the command for this key, and this is what its outcome proves. */
  predicate CameTo(js: seq<Journal>, acts: seq<Act>, k: nat, key: Key, result: Receipt) {
    k < |acts| && k < |js| && acts[k].Run? && At(js[k], acts[k].p) == Ready(key) && Parse(key.0, acts[k].r) == result
  }

  lemma {:induction false} ResultIsProven(js: seq<Journal>, acts: seq<Act>, m: nat, p: nat) returns (k: nat)
    requires IsHistory(js, acts) && m < |js| && At(js[m], p).Ran?
    ensures k < m && CameTo(js, acts, k, At(js[m], p).key, At(js[m], p).result)
  {
    assert ActAt(js, acts, m - 1);
    if acts[m - 1].Run? && acts[m - 1].p == p {
      k := m - 1;
    } else {
      assert At(js[m], p) == At(js[m - 1], p);
      k := ResultIsProven(js, acts, m - 1, p);
    }
  }

  /** In every history a final receipt is what the outcome of one earlier start of its command proves:
      nothing is taken for submitted, or for lost, without one. */
  lemma {:induction false} ReceiptIsProven(js: seq<Journal>, acts: seq<Act>, m: nat, key: Key) returns (k: nat)
    requires IsHistory(js, acts) && m < |js| && key in js[m].rows && !js[m].rows[key].Pending?
    ensures k < m && CameTo(js, acts, k, key, js[m].rows[key])
  {
    assert ActAt(js, acts, m - 1);
    if key in js[m - 1].rows && js[m - 1].rows[key] == js[m].rows[key] {
      k := ReceiptIsProven(js, acts, m - 1, key);
    } else {
      k := ResultIsProven(js, acts, m - 1, acts[m - 1].p);
    }
  }

  /** So a receipt says QUEUED only after a command for its key ended with code 0 and printed the success
      line of that submission. */
  lemma QueuedIsProven(js: seq<Journal>, acts: seq<Act>, m: nat, key: Key, submission: string) returns (k: nat)
    requires IsHistory(js, acts) && m < |js| && key in js[m].rows && js[m].rows[key] == Queued(submission)
    ensures k < m && k < |acts| && acts[k].Run? && At(js[k], acts[k].p) == Ready(key)
    ensures acts[k].r.Exited? && acts[k].r.code == 0
            && Trimming.Strip(IsSpace, acts[k].r.stdout) ==
                 "Queued message " + submission + " for thread " + key.0 + "."
  {
    k := ReceiptIsProven(js, acts, m, key);
    QueuedExactly(key.0, acts[k].r, submission);
  }

  /** Seen from the notifier: two different watermarks, or two different recipients, never share
      a receipt, so at-most-once holds for each of them separately. */
  lemma OncePerWatermark(js: seq<Journal>, acts: seq<Act>, k: nat, thread: string, r1: string, h1: nat, r2: string,
        h2: nat)
    requires IsHistory(js, acts) && k < |js| && IsSafeNodeId(r1) && IsSafeNodeId(r2)
    ensures multiset(js[k].started)[(thread, NotificationId(r1, h1))] <= 1
    ensures (r1, h1) != (r2, h2) ==> (thread, NotificationId(r1, h1)) != (thread, NotificationId(r2, h2))
  {
    SubmittedAtMostOnce(js, acts, k);
    NotificationIdInjective(r1, h1, r2, h2);
  }
}
