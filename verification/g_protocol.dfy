/** g: the deliveries table and the service as a transition system. A claimed
    row is leased to a task; tasks run concurrently and finalize by id without
    looking at the row. */
module GProtocol {
  import opened Common
  import opened Selection
  import Backoff

  datatype Status = Pending | Processing | Delivered | DeadLettered

  datatype Row = Row(
    destination: string, payload: string, status: Status, attempts: int, maxAttempts: int,
    nextAttemptAt: int, createdAt: int, updatedAt: int, deliveredAt: Option<int>, lastError: Option<string>)
  {
    function Reclaimed(now: int): Row {
      this.(status := Pending, updatedAt := now)
    }

    function Leased(now: int): Row {
      this.(status := Processing, updatedAt := now)
    }

    function Requeued(now: int): Row {
      this.(status := Pending, attempts := 0, nextAttemptAt := now, updatedAt := now, lastError := None, deliveredAt := None)
    }

    function Succeeded(n: int, now: int): Row {
      this.(status := Delivered, attempts := n, deliveredAt := Some(now), updatedAt := now, lastError := None)
    }

    function Exhausted(n: int, err: string, now: int): Row {
      this.(status := DeadLettered, attempts := n, lastError := Some(err), updatedAt := now, deliveredAt := None)
    }

    function Retrying(n: int, err: string, next: int, now: int): Row {
      this.(status := Pending, attempts := n, lastError := Some(err), nextAttemptAt := next, updatedAt := now)
    }

    predicate Terminal() {
      status == Delivered || status == DeadLettered
    }

    predicate SameSubmission(other: Row) {
      destination == other.destination && payload == other.payload && maxAttempts == other.maxAttempts && createdAt == other.createdAt
    }
  }

  type Rows = map<Id, Row>

  datatype Result = Ok | Failed(err: string)

  /** A spawned task: the row as returned by the claim, the time stamped on
      it, when the task got its permit, and the outcome once known. */
  datatype Task = Task(id: Id, attempts: int, maxAttempts: int, claimedAt: int, startedAt: Option<int>, result: Option<Result>)

  function FreshRow(destination: string, payload: string, maxAttempts: int, now: int): Row {
    Row(destination, payload, Pending, 0, maxAttempts, now, now, now, None, None)
  }

  function DueTimes(rows: Rows, now: int): map<Id, int> {
    map id | id in rows && rows[id].status == Pending && rows[id].nextAttemptAt <= now :: rows[id].nextAttemptAt
  }

  /** First statement of `tick`. */
  function AfterReclaim(rows: Rows, now: int, visibilityMs: int): Rows {
    map id | id in rows ::
      if rows[id].status == Processing && rows[id].updatedAt < now - visibilityMs then rows[id].Reclaimed(now) else rows[id]
  }

  /** Second statement of `tick`. */
  function AfterClaim(rows: Rows, batch: seq<Id>, now: int): Rows {
    map id | id in rows :: if id in batch then rows[id].Leased(now) else rows[id]
  }

  /** `reset_processing`, at startup. */
  function AfterRestart(rows: Rows, now: int): Rows {
    map id | id in rows :: if rows[id].status == Processing then rows[id].Reclaimed(now) else rows[id]
  }

  /** The one UPDATE that ends `process_job`; `now` was read when the task started. */
  function AfterTask(rows: Rows, t: Task, result: Result, delay: int, now: int): Rows {
    if t.id !in rows then rows
    else
      var n := t.attempts + 1;
      match result
      case Ok => rows[t.id := rows[t.id].Succeeded(n, now)]
      case Failed(err) =>
        if n >= t.maxAttempts then rows[t.id := rows[t.id].Exhausted(n, err, now)]
        else rows[t.id := rows[t.id].Retrying(n, err, now + delay, now)]
  }

  /** Second statement of `requeue_from_dlq`: not guarded by the status read before. */
  function AfterRequeue(rows: Rows, id: Id, now: int): Rows {
    if id in rows then rows[id := rows[id].Requeued(now)] else rows
  }

  predicate Numbered(t: nat, first: nat, n: nat) {
    first <= t < first + n
  }

  function NewTasks(rows: Rows, batch: seq<Id>, first: nat, now: int): map<nat, Task>
    requires forall i | 0 <= i < |batch| :: batch[i] in rows
  {
    map t: nat | first <= t < first + |batch| && Numbered(t, first, |batch|) ::
      Task(batch[t - first], rows[batch[t - first]].attempts, rows[batch[t - first]].maxAttempts, now, None, None)
  }

  // --------------------------------------------------------------- the protocol

  datatype Config = Config(visibilityMs: int, limit: nat, baseMs: int, maxMs: int)

  /** History of a row: answers since create or requeue, how many of them never
      reached the row, and whether any send ever got a 2xx. */
  datatype Ledger = Ledger(answers: seq<bool>, lost: nat, acknowledged: bool)

  datatype State = State(
    rows: Rows, up: bool, ticker: Option<int>, tasks: map<nat, Task>, nextTask: nat,
    requeues: map<nat, Id>, clock: int, ledger: map<Id, Ledger>)

  datatype Step =
    | Create(id: Id, destination: string, payload: string, maxAttempts: int)
    | Reclaim
    | Claim(batch: seq<Id>, fault: bool)
    | Begin(t: nat)
    | Respond(t: nat, result: Result)
    | Finalize(t: nat, draw: real, fault: bool)
    | RequeueRead(q: nat, id: Id)
    | RequeueWrite(q: nat, fault: bool)   // a fault, or the request dropped
    | Crash
    | Restart
    | Advance(now: int)

  function Init(): State {
    State(map[], false, None, map[], 0, map[], 0, map[])
  }

  /** MAX_ATTEMPTS is assumed to be at least 1. */
  ghost predicate Enabled(cfg: Config, s: State, st: Step) {
    match st
    case Create(id, _, _, maxAttempts) => s.up && id !in s.rows && maxAttempts >= 1
    case Reclaim => s.up && s.ticker == None
    case Claim(batch, _) => s.up && s.ticker.Some? && Oldest(DueTimes(s.rows, s.ticker.value), cfg.limit, batch)
    case Begin(t) => t in s.tasks && s.tasks[t].startedAt == None
    case Respond(t, _) => t in s.tasks && s.tasks[t].startedAt.Some? && s.tasks[t].result == None
    case Finalize(t, draw, _) =>
      && t in s.tasks && s.tasks[t].startedAt.Some? && s.tasks[t].result.Some?
      && (var cap := Backoff.GCap(s.tasks[t].attempts + 1, cfg.baseMs, cfg.maxMs) as real; cap / 2.0 <= draw <= cap)
    case RequeueRead(q, id) => s.up && q !in s.requeues && id in s.rows && s.rows[id].status == DeadLettered
    case RequeueWrite(q, _) => q in s.requeues
    case Crash => s.up
    case Restart => !s.up
    case Advance(now) => s.clock <= now
  }

  function AnsweredFor(tasks: map<nat, Task>, id: Id): set<nat> {
    set t | t in tasks && tasks[t].id == id && tasks[t].result.Some?
  }

  ghost function Apply(cfg: Config, s: State, st: Step): State
    requires Enabled(cfg, s, st)
  {
    match st
    case Create(id, destination, payload, maxAttempts) =>
      s.(rows := s.rows[id := FreshRow(destination, payload, maxAttempts, s.clock)], ledger := s.ledger[id := Ledger([], 0, false)])
    case Reclaim =>
      s.(rows := AfterReclaim(s.rows, s.clock, cfg.visibilityMs), ticker := Some(s.clock))
    case Claim(batch, fault) =>
      if fault then s.(ticker := None)
      else s.(rows := AfterClaim(s.rows, batch, s.ticker.value), ticker := None, nextTask := s.nextTask + |batch|,
              tasks := s.tasks + NewTasks(s.rows, batch, s.nextTask, s.ticker.value))
    case Begin(t) =>
      s.(tasks := s.tasks[t := s.tasks[t].(startedAt := Some(s.clock))])
    case Respond(t, result) =>
      var id := s.tasks[t].id;
      s.(tasks := s.tasks[t := s.tasks[t].(result := Some(result))],
         ledger := if id !in s.ledger then s.ledger
                   else var l := s.ledger[id];
                     s.ledger[id := l.(answers := l.answers + [result.Ok?], acknowledged := l.acknowledged || result.Ok?)])
    case Finalize(t, draw, fault) =>
      var task := s.tasks[t];
      var s1 := s.(tasks := s.tasks - {t});
      if fault then
        s1.(ledger := if task.id !in s.ledger then s.ledger else s.ledger[task.id := s.ledger[task.id].(lost := s.ledger[task.id].lost + 1)])
      else
        s1.(rows := AfterTask(s.rows, task, task.result.value, Backoff.GDelay(draw), task.startedAt.value))
    case RequeueRead(q, id) => s.(requeues := s.requeues[q := id])
    case RequeueWrite(q, fault) =>
      var id := s.requeues[q];
      if fault then s.(requeues := s.requeues - {q})
      else s.(requeues := s.requeues - {q}, rows := AfterRequeue(s.rows, id, s.clock),
         ledger := if id !in s.ledger then s.ledger else s.ledger[id := s.ledger[id].(answers := [], lost := 0)])
    case Crash =>
      s.(up := false, ticker := None, tasks := map[], requeues := map[],
         ledger := map id | id in s.ledger :: s.ledger[id].(lost := s.ledger[id].lost + |AnsweredFor(s.tasks, id)|))
    case Restart => s.(up := true, rows := AfterRestart(s.rows, s.clock))
    case Advance(now) => s.(clock := now)
  }

  ghost predicate IsRun(cfg: Config, b: seq<State>, steps: seq<Step>) {
    && |b| == |steps| + 1
    && forall i {:trigger steps[i]} | 0 <= i < |steps| :: Enabled(cfg, b[i], steps[i]) && b[i + 1] == Apply(cfg, b[i], steps[i])
  }

  ghost predicate IsService(cfg: Config, b: seq<State>, steps: seq<Step>) {
    IsRun(cfg, b, steps) && b[0] == Init()
  }

  /** A run taken one step further. */
  lemma Append(cfg: Config, b: seq<State>, steps: seq<Step>, st: Step) returns (b': seq<State>, steps': seq<Step>)
    requires IsRun(cfg, b, steps) && Enabled(cfg, b[|b| - 1], st)
    ensures IsRun(cfg, b', steps') && b' == b + [Apply(cfg, b[|b| - 1], st)] && steps' == steps + [st]
  {
    b', steps' := b + [Apply(cfg, b[|b| - 1], st)], steps + [st];
    forall i | 0 <= i < |steps'| ensures Enabled(cfg, b'[i], steps'[i]) && b'[i + 1] == Apply(cfg, b'[i], steps'[i]) {
      if i < |steps| { assert steps'[i] == steps[i] && b'[i] == b[i] && b'[i + 1] == b[i + 1]; }
    }
  }

  // ---------------------------------------------- what survives late tasks and races

  ghost predicate RowOk(r: Row, acknowledged: bool) {
    && r.maxAttempts >= 1
    && 0 <= r.attempts <= r.maxAttempts
    && (!r.Terminal() ==> r.attempts < r.maxAttempts)
    && (r.status == DeadLettered ==> r.attempts == r.maxAttempts && r.lastError.Some?)
    && (r.status == Delivered ==> r.attempts >= 1 && acknowledged)
  }

  ghost predicate TaskOk(s: State, t: Task) {
    && t.id in s.rows && t.id in s.ledger
    && t.maxAttempts == s.rows[t.id].maxAttempts && 0 <= t.attempts < t.maxAttempts
    && (t.result == Some(Ok) ==> s.ledger[t.id].acknowledged)
  }

  ghost predicate Sane(s: State) {
    && s.ledger.Keys == s.rows.Keys
    && (forall id | id in s.rows :: RowOk(s.rows[id], s.ledger[id].acknowledged))
    && (forall t | t in s.tasks :: TaskOk(s, s.tasks[t]) && t < s.nextTask)
    && (!s.up ==> s.tasks == map[] && s.requeues == map[] && s.ticker == None)
    && (s.ticker.Some? ==> s.ticker.value <= s.clock)
  }

  lemma StepKeeps(cfg: Config, s: State, st: Step)
    requires Enabled(cfg, s, st)
    ensures forall id | id in s.rows :: id in Apply(cfg, s, st).rows && Apply(cfg, s, st).rows[id].SameSubmission(s.rows[id])
  {
  }

  lemma StepLedger(cfg: Config, s: State, st: Step)
    requires Sane(s) && Enabled(cfg, s, st)
    ensures Apply(cfg, s, st).ledger.Keys == Apply(cfg, s, st).rows.Keys
    ensures forall id | id in s.ledger && s.ledger[id].acknowledged :: Apply(cfg, s, st).ledger[id].acknowledged
  {
    if st.Finalize? || st.Respond? { assert TaskOk(s, s.tasks[st.t]); }
  }

  lemma TaskRow(t: Task, result: Result, delay: int, now: int, r: Row, rows: Rows)
    requires t.id in rows && rows[t.id] == r && t.maxAttempts == r.maxAttempts && 0 <= t.attempts < t.maxAttempts
    ensures RowOk(AfterTask(rows, t, result, delay, now)[t.id], result.Ok?)
    ensures forall id | id in rows && id != t.id :: AfterTask(rows, t, result, delay, now)[id] == rows[id]
  {
  }

  lemma StepRows(cfg: Config, s: State, st: Step, id: Id)
    requires Sane(s) && Enabled(cfg, s, st) && id in Apply(cfg, s, st).rows
    ensures id in Apply(cfg, s, st).ledger && RowOk(Apply(cfg, s, st).rows[id], Apply(cfg, s, st).ledger[id].acknowledged)
  {
    StepLedger(cfg, s, st);
    if st.Finalize? {
      FinalizeRows(cfg, s, st, id);
    } else if st.Create? || st.RequeueWrite? {
      FreshRows(cfg, s, st, id);
    } else {
      ReStatused(cfg, s, st, id);
    }
  }

  lemma FreshRows(cfg: Config, s: State, st: Step, id: Id)
    requires Sane(s) && Enabled(cfg, s, st) && (st.Create? || st.RequeueWrite?) && id in Apply(cfg, s, st).rows
    ensures id in Apply(cfg, s, st).ledger && RowOk(Apply(cfg, s, st).rows[id], Apply(cfg, s, st).ledger[id].acknowledged)
  {
  }

  lemma FinalizeRows(cfg: Config, s: State, st: Step, id: Id)
    requires Sane(s) && Enabled(cfg, s, st) && st.Finalize? && id in s.rows
    requires id in Apply(cfg, s, st).ledger && (s.ledger[id].acknowledged ==> Apply(cfg, s, st).ledger[id].acknowledged)
    ensures RowOk(Apply(cfg, s, st).rows[id], Apply(cfg, s, st).ledger[id].acknowledged)
  {
    var t := s.tasks[st.t];
    assert TaskOk(s, t);
    TaskRow(t, t.result.value, Backoff.GDelay(st.draw), t.startedAt.value, s.rows[t.id], s.rows);
  }

  /** Reclaim, claim and restart only trade pending for processing; the rest leave rows alone. */
  lemma ReStatused(cfg: Config, s: State, st: Step, id: Id)
    requires Sane(s) && Enabled(cfg, s, st) && !st.Finalize? && !st.Create? && !st.RequeueWrite? && id in s.rows
    requires id in Apply(cfg, s, st).ledger && (s.ledger[id].acknowledged ==> Apply(cfg, s, st).ledger[id].acknowledged)
    ensures RowOk(Apply(cfg, s, st).rows[id], Apply(cfg, s, st).ledger[id].acknowledged)
  {
    assert RowOk(s.rows[id], s.ledger[id].acknowledged);
    assert st.Claim? && id in st.batch ==> id in DueTimes(s.rows, s.ticker.value);
  }

  lemma StepTasks(cfg: Config, s: State, st: Step, t: nat)
    requires Sane(s) && Enabled(cfg, s, st) && t in Apply(cfg, s, st).tasks
    ensures TaskOk(Apply(cfg, s, st), Apply(cfg, s, st).tasks[t]) && t < Apply(cfg, s, st).nextTask
  {
    if t in s.tasks {
      OldTask(cfg, s, st, t);
    } else {
      NewTask(cfg, s, st, t);
    }
  }

  lemma NewTask(cfg: Config, s: State, st: Step, t: nat)
    requires Sane(s) && Enabled(cfg, s, st) && t in Apply(cfg, s, st).tasks && t !in s.tasks
    ensures st.Claim? && TaskOk(Apply(cfg, s, st), Apply(cfg, s, st).tasks[t]) && t < Apply(cfg, s, st).nextTask
  {
    OnlyClaimSpawns(cfg, s, st, t);
    SpawnedTask(cfg, s, st, t);
  }

  lemma OnlyClaimSpawns(cfg: Config, s: State, st: Step, t: nat)
    requires Enabled(cfg, s, st) && t in Apply(cfg, s, st).tasks && t !in s.tasks
    ensures st.Claim? && !st.fault
  {
  }

  lemma SpawnedTask(cfg: Config, s: State, st: Step, t: nat)
    requires Sane(s) && Enabled(cfg, s, st) && st.Claim? && !st.fault && t in Apply(cfg, s, st).tasks && t !in s.tasks
    ensures TaskOk(Apply(cfg, s, st), Apply(cfg, s, st).tasks[t]) && t < Apply(cfg, s, st).nextTask
  {
    assert st.batch[t - s.nextTask] in DueTimes(s.rows, s.ticker.value);
  }

  lemma OldTask(cfg: Config, s: State, st: Step, t: nat)
    requires Sane(s) && Enabled(cfg, s, st) && t in Apply(cfg, s, st).tasks && t in s.tasks
    ensures TaskOk(Apply(cfg, s, st), Apply(cfg, s, st).tasks[t]) && t < Apply(cfg, s, st).nextTask
  {
    StepKeeps(cfg, s, st);
    StepLedger(cfg, s, st);
    assert TaskOk(s, s.tasks[t]) && t < s.nextTask;
    if st.Respond? && st.t == t {
      assert Apply(cfg, s, st).tasks[t] == s.tasks[t].(result := Some(st.result));
    } else {
      SameTask(cfg, s, st, t);
    }
  }

  lemma SameTask(cfg: Config, s: State, st: Step, t: nat)
    requires Enabled(cfg, s, st) && t in Apply(cfg, s, st).tasks && t in s.tasks && t < s.nextTask && !(st.Respond? && st.t == t)
    ensures var task, task' := s.tasks[t], Apply(cfg, s, st).tasks[t];
      task'.id == task.id && task'.attempts == task.attempts && task'.maxAttempts == task.maxAttempts && task'.result == task.result
    ensures t < Apply(cfg, s, st).nextTask
  {
  }

  lemma StepSane(cfg: Config, s: State, st: Step)
    requires Sane(s) && Enabled(cfg, s, st)
    ensures Sane(Apply(cfg, s, st))
  {
    var s' := Apply(cfg, s, st);
    StepLedger(cfg, s, st);
    forall id | id in s'.rows ensures id in s'.ledger && RowOk(s'.rows[id], s'.ledger[id].acknowledged) { StepRows(cfg, s, st, id); }
    forall t | t in s'.tasks ensures TaskOk(s', s'.tasks[t]) && t < s'.nextTask { StepTasks(cfg, s, st, t); }
  }

  lemma {:induction false} RunSane(cfg: Config, b: seq<State>, steps: seq<Step>, i: nat)
    requires IsService(cfg, b, steps) && i < |b|
    ensures Sane(b[i])
  {
    if i > 0 {
      RunSane(cfg, b, steps, i - 1);
      StepSane(cfg, b[i - 1], steps[i - 1]);
    }
  }

  /** In every run, with any timing: the attempt counters never pass the limit,
      whatever is still to be sent has an attempt left, the dead letters are
      the exhausted rows, and a delivered row got a 2xx. */
  lemma CountersHold(cfg: Config, b: seq<State>, steps: seq<Step>, i: nat, id: Id)
    requires IsService(cfg, b, steps) && i < |b| && id in b[i].rows
    ensures var r := b[i].rows[id];
      && 0 <= r.attempts <= r.maxAttempts
      && (r.status == Pending || r.status == Processing ==> r.attempts < r.maxAttempts)
      && (r.status == DeadLettered ==> r.attempts == r.maxAttempts && r.lastError.Some?)
      && (r.status == Delivered ==> id in b[i].ledger && b[i].ledger[id].acknowledged)
    ensures forall t | t in b[i].tasks && b[i].tasks[t].id == id :: 0 <= b[i].tasks[t].attempts < b[i].rows[id].maxAttempts
  {
    RunSane(cfg, b, steps, i);
    assert forall t | t in b[i].tasks && b[i].tasks[t].id == id :: TaskOk(b[i], b[i].tasks[t]);
  }

  /** Once accepted, a delivery keeps its row, payload and destination. */
  lemma {:induction false} AcceptedIsKept(cfg: Config, b: seq<State>, steps: seq<Step>, i: nat, j: nat, id: Id)
    requires IsService(cfg, b, steps) && i <= j < |b| && id in b[i].rows
    ensures id in b[j].rows && b[j].rows[id].SameSubmission(b[i].rows[id])
    decreases j - i
  {
    if i < j {
      AcceptedIsKept(cfg, b, steps, i, j - 1, id);
      StepKeeps(cfg, b[j - 1], steps[j - 1]);
    }
  }

  /** `acknowledged` is set by a 2xx answer to a task of this row and by nothing else. */
  lemma {:induction false} AcknowledgedMeans2xx(cfg: Config, b: seq<State>, steps: seq<Step>, i: nat, id: Id)
    requires IsService(cfg, b, steps) && i < |b|
    requires id in b[i].ledger && b[i].ledger[id].acknowledged
    ensures exists k :: 0 <= k < i && steps[k].Respond? && steps[k].result.Ok? && steps[k].t in b[k].tasks && b[k].tasks[steps[k].t].id == id
  {
    if i > 0 {
      RunSane(cfg, b, steps, i - 1);
      if id in b[i - 1].ledger && b[i - 1].ledger[id].acknowledged {
        AcknowledgedMeans2xx(cfg, b, steps, i - 1, id);
      } else {
        OnlyRespondAcknowledges(cfg, b[i - 1], steps[i - 1], id);
      }
    }
  }

  lemma OnlyRespondAcknowledges(cfg: Config, s: State, st: Step, id: Id)
    requires Sane(s) && Enabled(cfg, s, st)
    requires !(id in s.ledger && s.ledger[id].acknowledged)
    requires id in Apply(cfg, s, st).ledger && Apply(cfg, s, st).ledger[id].acknowledged
    ensures st.Respond? && st.result.Ok? && st.t in s.tasks && s.tasks[st.t].id == id
  {
  }
}
