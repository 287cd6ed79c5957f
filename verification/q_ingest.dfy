/** q: idempotent submission, as the handler does it and over whole runs. */
module QIngest {
  import opened Common
  import opened QStore
  import opened QProtocol
  import QRecovery

  datatype IngestResult =
    | Created
    | Duplicate(existing: Id, status: Option<Status>)   // None: "unknown"
    | Refused                                           // destination validation
    | Internal                                          // database error

  /** Validate, insert, and on a key conflict report the existing row. The two
      database calls take the lock separately; here nothing comes between them. */
  method IngestSync(db: Db, validationOk: bool, d: NewDelivery, now: int, insertFault: bool, findFault: bool)
    returns (r: IngestResult)
    requires db.Valid()
    modifies db`rows
    ensures db.Valid()
    ensures !validationOk ==> r == Refused && db.rows == old(db.rows)
    ensures validationOk && insertFault ==> r == Internal && db.rows == old(db.rows)
    ensures validationOk && !insertFault ==> db.rows == AfterInsert(old(db.rows), d, now)
    ensures validationOk && !insertFault ==>
      match InsertAnswer(old(db.rows), d)
      case Inserted => r == Created
      case SqliteError => r == Internal
      case Conflict(existing) => r == Duplicate(existing, if findFault then None else Some(old(db.rows)[existing].status))
  {
    if !validationOk {
      return Refused;
    }
    var answer := db.Insert(d, now, insertFault);
    match answer
    case Inserted => return Created;
    case SqliteError => return Internal;
    case Conflict(existing) =>
      var found := db.Find(existing);
      if findFault || found == None {
        return Duplicate(existing, None);
      }
      return Duplicate(existing, Some(found.value.status));
  }

  /** What `IngestSync` answers and leaves is what the submission, and on a
      conflict the lookup, answer and leave in the protocol. */
  lemma IngestIsARun(cfg: Config, s: State, d: NewDelivery, findFault: bool) returns (b: seq<State>, steps: seq<Step>)
    requires Sane(s)
    ensures IsRun(cfg, b, steps) && b[0] == s
    ensures var s', answer := b[|b| - 1], InsertAnswer(s.rows, d);
      && s'.rows == AfterInsert(s.rows, d, s.clock) && s'.dlq == s.dlq && s'.workers == s.workers && s'.lookups == s.lookups && s'.clock == s.clock
      && s'.replies == s.replies + Told(s.rows, d, answer, findFault)
  {
    b, steps := Append(cfg, [s], [], Submit(d));
    if InsertAnswer(s.rows, d).Conflict? {
      b, steps := Append(cfg, b, steps, AnswerDuplicate(|s.lookups|, findFault));
    }
  }

  /** The replies, as the handler words them. */
  ghost function Told(rows: Rows, d: NewDelivery, answer: InsertResult, findFault: bool): seq<Reply>
    requires answer.Conflict? ==> answer.existing in rows
  {
    match answer
    case Inserted => [Reply(d.key, d.id, Some(Pending))]
    case Conflict(existing) => [Reply(d.key, existing, if findFault then None else Some(rows[existing].status))]
    case SqliteError => []
  }

  // ------------------------------------------------------------------ whole runs

  ghost predicate InboxOk(s: State) {
    && (forall l | l in s.lookups :: l.key.Some? && l.existing in s.rows && s.rows[l.existing].key == l.key)
    && (forall r | r in s.replies :: r.id in s.rows && s.rows[r.id].key == r.key)
  }

  lemma StepInbox(cfg: Config, s: State, st: Step)
    requires Sane(s) && Enabled(cfg, s, st) && InboxOk(s)
    ensures InboxOk(Apply(cfg, s, st))
    ensures s.replies <= Apply(cfg, s, st).replies
  {
    StepKeeps(cfg, s, st);
    if st.AnswerDuplicate? {
      assert s.lookups[st.i] in s.lookups;
    }
  }

  lemma {:induction false} RunInbox(cfg: Config, workers: nat, b: seq<State>, steps: seq<Step>, i: nat)
    requires IsService(cfg, workers, b, steps) && i < |b|
    ensures Sane(b[i]) && InboxOk(b[i])
  {
    RunSane(cfg, workers, b, steps, i);
    if i > 0 {
      RunInbox(cfg, workers, b, steps, i - 1);
      StepInbox(cfg, b[i - 1], steps[i - 1]);
    }
  }

  /** Whenever two submissions under one key are answered, both are told the
      same delivery, and it still holds what it held at the first answer. */
  lemma SameKeySameDelivery(cfg: Config, workers: nat, b: seq<State>, steps: seq<Step>, i: nat, j: nat, first: Reply, later: Reply)
    requires IsService(cfg, workers, b, steps) && i <= j < |b|
    requires first in b[i].replies && later in b[j].replies
    requires first.key.Some? && first.key == later.key
    ensures first.id == later.id
    ensures first.id in b[i].rows && first.id in b[j].rows && b[j].rows[first.id].SameSubmission(b[i].rows[first.id])
  {
    RunInbox(cfg, workers, b, steps, i);
    RunInbox(cfg, workers, b, steps, j);
    QRecovery.AcceptedIsKept(cfg, workers, b, steps, i, j, first.id);
  }

  /** Every row was inserted by one submission and still carries its data; no
      submission under the same key was inserted before it. */
  lemma {:induction false} RowsHaveOrigins(cfg: Config, workers: nat, b: seq<State>, steps: seq<Step>, i: nat, id: Id) returns (k: nat)
    requires IsService(cfg, workers, b, steps) && i < |b| && id in b[i].rows
    ensures k < i && steps[k].Submit? && steps[k].d.id == id && InsertAnswer(b[k].rows, steps[k].d) == Inserted
    ensures var d, r := steps[k].d, b[i].rows[id];
      r.key == d.key && r.destination == d.destination && r.payload == d.payload && r.maxAttempts == d.maxAttempts
    ensures b[i].rows[id].key.Some? ==> forall e | e in b[k].rows :: b[k].rows[e].key != b[i].rows[id].key
  {
    var st := steps[i - 1];
    StepKeeps(cfg, b[i - 1], st);
    if id in b[i - 1].rows {
      k := RowsHaveOrigins(cfg, workers, b, steps, i - 1, id);
    } else {
      k := i - 1;
    }
  }

  /** "unknown" is answered exactly when the second lookup fails in SQLite:
      the row it looks for is never missing. */
  lemma UnknownOnlyOnFault(cfg: Config, workers: nat, b: seq<State>, steps: seq<Step>, i: nat)
    requires IsService(cfg, workers, b, steps) && i < |steps| && steps[i].AnswerDuplicate?
    ensures |b[i + 1].replies| == |b[i].replies| + 1
    ensures b[i + 1].replies[|b[i].replies|].status == None <==> steps[i].fault
  {
    RunInbox(cfg, workers, b, steps, i);
    assert b[i].lookups[steps[i].i] in b[i].lookups;
  }
}
