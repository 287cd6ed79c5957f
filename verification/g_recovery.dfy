/** g: from every reachable state a delivery that is not terminal can still be delivered. */
module GRecovery {
  import opened Common
  import opened Selection
  import opened GProtocol
  import Backoff

  /** Restart, clock, tick, task, 2xx and its recording; no failing write. */
  predicate Recovering(st: Step) {
    match st
    case Reclaim => true
    case Claim(_, fault) => !fault
    case Begin(_) => true
    case Respond(_, result) => result.Ok?
    case Finalize(_, _, fault) => !fault
    case Crash => true
    case Restart => true
    case Advance(_) => true
    case _ => false
  }

  ghost predicate DeliverableWithin(cfg: Config, s: State, id: Id, n: nat)
    decreases n
  {
    || (id in s.rows && s.rows[id].status == Delivered)
    || (n > 0 && exists st :: Enabled(cfg, s, st) && Recovering(st) && DeliverableWithin(cfg, Apply(cfg, s, st), id, n - 1))
  }

  lemma Then(cfg: Config, s: State, st: Step, id: Id, n: nat)
    requires Enabled(cfg, s, st) && Recovering(st) && DeliverableWithin(cfg, Apply(cfg, s, st), id, n)
    ensures DeliverableWithin(cfg, s, id, n + 1)
  {
  }

  lemma {:induction false} Longer(cfg: Config, s: State, id: Id, m: nat, n: nat)
    requires DeliverableWithin(cfg, s, id, m) && m <= n
    ensures DeliverableWithin(cfg, s, id, n)
    decreases m
  {
    if !(id in s.rows && s.rows[id].status == Delivered) {
      var st :| Enabled(cfg, s, st) && Recovering(st) && DeliverableWithin(cfg, Apply(cfg, s, st), id, m - 1);
      Longer(cfg, Apply(cfg, s, st), id, m - 1, n - 1);
    }
  }

  function WithStatus(rows: Rows, status: Status): set<Id> {
    set id | id in rows && rows[id].status == status
  }

  ghost predicate HasItsTask(s: State, id: Id) {
    exists t :: t in s.tasks && s.tasks[t].id == id
  }

  /** A task that has not begun, for a row being processed. */
  ghost predicate NotBegun(s: State, t: nat) {
    && t in s.tasks && s.tasks[t].startedAt == None && s.tasks[t].result == None
    && s.tasks[t].id in s.rows && s.rows[s.tasks[t].id].status == Processing
  }

  ghost predicate AllDue(s: State) {
    forall id | id in s.rows && s.rows[id].status == Pending :: s.rows[id].nextAttemptAt <= s.clock
  }

  ghost predicate OneTaskEach(s: State) {
    && (forall id | id in s.rows && s.rows[id].status == Processing :: HasItsTask(s, id))
    && (forall t | t in s.tasks :: NotBegun(s, t))
    && (forall t, u | t in s.tasks && u in s.tasks && s.tasks[t].id == s.tasks[u].id :: t == u)
  }

  /** After a restart and enough time: pending rows are due, and each row being
      processed has one task that has not begun. */
  ghost predicate Draining(s: State) {
    Sane(s) && s.up && s.ticker == None && AllDue(s) && OneTaskEach(s)
  }

  /** The decreasing measure: five steps for a pending row, three once it has its task. */
  ghost function StepsLeft(s: State): nat {
    5 * |WithStatus(s.rows, Pending)| + 3 * |WithStatus(s.rows, Processing)|
  }

  lemma Chain3(cfg: Config, s: State, st1: Step, s1: State, st2: Step, s2: State, st3: Step, s3: State)
    requires Enabled(cfg, s, st1) && Recovering(st1) && s1 == Apply(cfg, s, st1)
    requires Enabled(cfg, s1, st2) && Recovering(st2) && s2 == Apply(cfg, s1, st2)
    requires Enabled(cfg, s2, st3) && Recovering(st3) && s3 == Apply(cfg, s2, st3)
    ensures forall id, n: nat | DeliverableWithin(cfg, s3, id, n) :: DeliverableWithin(cfg, s, id, n + 3)
  {
    forall id, n: nat | DeliverableWithin(cfg, s3, id, n) ensures DeliverableWithin(cfg, s, id, n + 3) {
      Then(cfg, s2, st3, id, n);
      Then(cfg, s1, st2, id, n + 1);
      Then(cfg, s, st1, id, n + 2);
    }
  }

  /** Begin and 2xx. */
  lemma FirstSteps(cfg: Config, s: State, t: nat) returns (s1: State, s2: State)
    requires Sane(s) && NotBegun(s, t)
    ensures Enabled(cfg, s, Begin(t)) && s1 == Apply(cfg, s, Begin(t))
    ensures Enabled(cfg, s1, Respond(t, Ok)) && s2 == Apply(cfg, s1, Respond(t, Ok)) && Sane(s2)
    ensures s2.rows == s.rows && s2.up == s.up && s2.ticker == s.ticker && s2.clock == s.clock
    ensures s2.tasks == s.tasks[t := s.tasks[t].(startedAt := Some(s.clock), result := Some(Ok))]
  {
    StepSane(cfg, s, Begin(t));
    s1 := Apply(cfg, s, Begin(t));
    assert s1 == s.(tasks := s.tasks[t := s.tasks[t].(startedAt := Some(s.clock))]);
    StepSane(cfg, s1, Respond(t, Ok));
    s2 := Apply(cfg, s1, Respond(t, Ok));
  }

  /** Begin, 2xx, record: one task delivers its row and nothing else changes. */
  lemma FinishTask(cfg: Config, s: State, t: nat) returns (s3: State)
    requires Sane(s) && s.up && s.ticker == None && NotBegun(s, t)
    ensures Sane(s3) && s3.up && s3.ticker == None && s3.clock == s.clock && s3.tasks == s.tasks - {t}
    ensures var id := s.tasks[t].id; id in s.rows && s3.rows == s.rows[id := s.rows[id].Succeeded(s.tasks[t].attempts + 1, s.clock)]
    ensures forall id, n: nat | DeliverableWithin(cfg, s3, id, n) :: DeliverableWithin(cfg, s, id, n + 3)
  {
    var s1, s2 := FirstSteps(cfg, s, t);
    var draw;
    draw, s3 := LastStep(cfg, s2, t);
    UpdatedThenGone(s.tasks, t, s2.tasks[t]);
    Chain3(cfg, s, Begin(t), s1, Respond(t, Ok), s2, Finalize(t, draw, false), s3);
  }

  lemma UpdatedThenGone(tasks: map<nat, Task>, t: nat, task: Task)
    ensures tasks[t := task] - {t} == tasks - {t}
  {
  }

  lemma LastStep(cfg: Config, s: State, t: nat) returns (draw: real, s': State)
    requires Sane(s) && t in s.tasks && s.tasks[t].startedAt.Some? && s.tasks[t].result == Some(Ok)
    ensures Enabled(cfg, s, Finalize(t, draw, false)) && s' == Apply(cfg, s, Finalize(t, draw, false))
    ensures Sane(s') && s'.tasks == s.tasks - {t} && s'.up == s.up && s'.ticker == s.ticker && s'.clock == s.clock
    ensures var task := s.tasks[t];
      task.id in s.rows && s'.rows == s.rows[task.id := s.rows[task.id].Succeeded(task.attempts + 1, task.startedAt.value)]
  {
    draw := EnabledDraw(cfg, s, t);
    StepSane(cfg, s, Finalize(t, draw, false));
    s' := Apply(cfg, s, Finalize(t, draw, false));
    assert TaskOk(s, s.tasks[t]);
  }

  lemma EnabledDraw(cfg: Config, s: State, t: nat) returns (draw: real)
    requires t in s.tasks && s.tasks[t].startedAt.Some? && s.tasks[t].result.Some?
    ensures Enabled(cfg, s, Finalize(t, draw, false))
  {
    draw := Backoff.GCap(s.tasks[t].attempts + 1, cfg.baseMs, cfg.maxMs) as real;
    Backoff.GMonotone(s.tasks[t].attempts + 1, s.tasks[t].attempts + 1, cfg.baseMs, cfg.maxMs);
  }

  lemma TaskFinished(s: State, t: nat, s3: State)
    requires AllDue(s) && OneTaskEach(s) && t in s.tasks && s3.clock == s.clock && s3.tasks == s.tasks - {t}
    requires var id := s.tasks[t].id; id in s.rows && s3.rows == s.rows[id := s.rows[id].Succeeded(s.tasks[t].attempts + 1, s.clock)]
    ensures AllDue(s3) && OneTaskEach(s3)
  {
    forall j | j in s3.rows && s3.rows[j].status == Processing ensures HasItsTask(s3, j) {
      assert j != s.tasks[t].id && HasItsTask(s, j);
      var u :| u in s.tasks && s.tasks[u].id == j;
      assert u in s3.tasks && s3.tasks[u].id == j;
    }
    forall u | u in s3.tasks ensures NotBegun(s3, u) {
      assert u in s.tasks && u != t && NotBegun(s, u) && s.tasks[u].id != s.tasks[t].id;
    }
  }

  lemma TaskCounts(s: State, t: nat, s3: State)
    requires t in s.tasks && s.tasks[t].id in s.rows && s.rows[s.tasks[t].id].status == Processing
    requires var id := s.tasks[t].id; s3.rows == s.rows[id := s.rows[id].Succeeded(s.tasks[t].attempts + 1, s.clock)]
    ensures StepsLeft(s3) + 3 == StepsLeft(s)
  {
    var id := s.tasks[t].id;
    assert WithStatus(s3.rows, Pending) == WithStatus(s.rows, Pending);
    assert id in WithStatus(s.rows, Processing);
    assert WithStatus(s3.rows, Processing) == WithStatus(s.rows, Processing) - {id};
  }

  lemma Chain2(cfg: Config, s: State, st1: Step, s1: State, st2: Step, s2: State)
    requires Enabled(cfg, s, st1) && Recovering(st1) && s1 == Apply(cfg, s, st1)
    requires Enabled(cfg, s1, st2) && Recovering(st2) && s2 == Apply(cfg, s1, st2)
    ensures forall id, n: nat | DeliverableWithin(cfg, s2, id, n) :: DeliverableWithin(cfg, s, id, n + 2)
  {
    forall id, n: nat | DeliverableWithin(cfg, s2, id, n) ensures DeliverableWithin(cfg, s, id, n + 2) {
      Then(cfg, s1, st2, id, n);
      Then(cfg, s, st1, id, n + 1);
    }
  }

  /** A tick with no task under way: nothing to reclaim, a batch to claim. */
  lemma TickAll(cfg: Config, s: State) returns (s2: State)
    requires Draining(s) && s.tasks == map[] && WithStatus(s.rows, Pending) != {} && cfg.limit >= 1
    ensures Draining(s2) && StepsLeft(s2) + 2 <= StepsLeft(s) && s2.rows.Keys == s.rows.Keys
    ensures forall id | id in s.rows && !s.rows[id].Terminal() :: !s2.rows[id].Terminal()
    ensures forall id, n: nat | DeliverableWithin(cfg, s2, id, n) :: DeliverableWithin(cfg, s, id, n + 2)
  {
    NothingProcessing(s);
    var s1 := ReclaimNothing(cfg, s);
    var batch := OldestExists(DueTimes(s.rows, s.clock), cfg.limit);
    s2 := ClaimAll(cfg, s1, batch);
    TickCounts(cfg, s, batch, s2);
    Chain2(cfg, s, Reclaim, s1, Claim(batch, false), s2);
  }

  lemma ReclaimNothing(cfg: Config, s: State) returns (s1: State)
    requires Draining(s) && s.tasks == map[] && WithStatus(s.rows, Processing) == {}
    ensures Enabled(cfg, s, Reclaim) && s1 == Apply(cfg, s, Reclaim)
    ensures Sane(s1) && AllDue(s1) && OneTaskEach(s1) && s1 == s.(ticker := Some(s.clock))
  {
    StepSane(cfg, s, Reclaim);
    s1 := Apply(cfg, s, Reclaim);
    assert forall id | id in s.rows && s.rows[id].status == Processing :: id in WithStatus(s.rows, Processing);
    assert s1.rows == s.rows;
    NothingWaits(s1);
  }

  lemma NothingWaits(s: State)
    requires s.tasks == map[] && WithStatus(s.rows, Processing) == {}
    ensures OneTaskEach(s)
  {
    assert forall id | id in s.rows && s.rows[id].status == Processing :: id in WithStatus(s.rows, Processing);
  }

  lemma NothingProcessing(s: State)
    requires OneTaskEach(s) && s.tasks == map[]
    ensures WithStatus(s.rows, Processing) == {}
  {
    assert forall id | id in s.rows && s.rows[id].status == Processing :: HasItsTask(s, id);
  }

  lemma NonEmptyBatch(cfg: Config, s: State, batch: seq<Id>)
    requires AllDue(s) && WithStatus(s.rows, Pending) != {} && cfg.limit >= 1
    requires Oldest(DueTimes(s.rows, s.clock), cfg.limit, batch)
    ensures |batch| >= 1
    ensures forall i | 0 <= i < |batch| :: batch[i] in s.rows && s.rows[batch[i]].status == Pending
  {
    var id := Pick(WithStatus(s.rows, Pending));
    var due := DueTimes(s.rows, s.clock);
    assert id in due;
    assert due.Keys != {};
    assert forall i | 0 <= i < |batch| :: batch[i] in due;
  }

  lemma ClaimAll(cfg: Config, s: State, batch: seq<Id>) returns (s': State)
    requires Sane(s) && s.up && s.ticker == Some(s.clock) && AllDue(s) && OneTaskEach(s) && s.tasks == map[]
    requires WithStatus(s.rows, Pending) != {} && cfg.limit >= 1
    requires Oldest(DueTimes(s.rows, s.clock), cfg.limit, batch)
    ensures Enabled(cfg, s, Claim(batch, false)) && s' == Apply(cfg, s, Claim(batch, false))
    ensures Draining(s') && s'.rows == AfterClaim(s.rows, batch, s.clock)
  {
    NonEmptyBatch(cfg, s, batch);
    s' := ClaimStep(cfg, s, batch);
    NewTasksCover(s, batch, s');
  }

  lemma ClaimStep(cfg: Config, s: State, batch: seq<Id>) returns (s': State)
    requires Sane(s) && s.up && s.ticker == Some(s.clock) && s.tasks == map[]
    requires Oldest(DueTimes(s.rows, s.clock), cfg.limit, batch)
    requires forall i | 0 <= i < |batch| :: batch[i] in s.rows
    ensures Enabled(cfg, s, Claim(batch, false)) && s' == Apply(cfg, s, Claim(batch, false))
    ensures Sane(s') && s'.up && s'.ticker == None && s'.clock == s.clock
    ensures s'.rows == AfterClaim(s.rows, batch, s.clock) && s'.tasks == NewTasks(s.rows, batch, s.nextTask, s.clock)
  {
    StepSane(cfg, s, Claim(batch, false));
    s' := Apply(cfg, s, Claim(batch, false));
  }

  lemma NewTasksCover(s: State, batch: seq<Id>, s2: State)
    requires forall i | 0 <= i < |batch| :: batch[i] in s.rows && s.rows[batch[i]].status == Pending
    requires forall i, j | 0 <= i < j < |batch| :: batch[i] != batch[j]
    requires s2.tasks == NewTasks(s.rows, batch, s.nextTask, s.clock) && s2.rows == AfterClaim(s.rows, batch, s.clock)
    requires OneTaskEach(s) && s.tasks == map[]
    ensures OneTaskEach(s2)
  {
    forall id | id in s2.rows && s2.rows[id].status == Processing ensures HasItsTask(s2, id) {
      assert s.rows[id].status == Processing ==> HasItsTask(s, id);
      var i :| 0 <= i < |batch| && batch[i] == id;
      ItsTask(s, batch, s2, i);
    }
    forall t | t in s2.tasks ensures NotBegun(s2, t) && s2.tasks[t].id == batch[t - s.nextTask] { }
  }

  lemma ItsTask(s: State, batch: seq<Id>, s2: State, i: nat)
    requires (forall j | 0 <= j < |batch| :: batch[j] in s.rows) && s2.tasks == NewTasks(s.rows, batch, s.nextTask, s.clock) && i < |batch|
    ensures HasItsTask(s2, batch[i])
  {
    assert Numbered(s.nextTask + i, s.nextTask, |batch|);
    assert s.nextTask + i in s2.tasks && s2.tasks[s.nextTask + i].id == batch[i];
  }

  lemma TickCounts(cfg: Config, s: State, batch: seq<Id>, s2: State)
    requires AllDue(s) && WithStatus(s.rows, Pending) != {} && cfg.limit >= 1
    requires Oldest(DueTimes(s.rows, s.clock), cfg.limit, batch)
    requires WithStatus(s.rows, Processing) == {}
    requires s2.rows == AfterClaim(s.rows, batch, s.clock)
    ensures StepsLeft(s2) + 2 <= StepsLeft(s) && s2.rows.Keys == s.rows.Keys
    ensures forall id | id in s.rows && !s.rows[id].Terminal() :: !s2.rows[id].Terminal()
  {
    NonEmptyBatch(cfg, s, batch);
    var taken := set i | 0 <= i < |batch| :: batch[i];
    BatchSize(batch);
    assert forall id :: id in taken <==> id in batch;
    assert forall id | id in s.rows :: id !in WithStatus(s.rows, Processing);
    assert WithStatus(s2.rows, Processing) == taken;
    assert WithStatus(s2.rows, Pending) == WithStatus(s.rows, Pending) - taken;
    assert taken <= WithStatus(s.rows, Pending);
  }

  lemma {:induction false} Drain(cfg: Config, s: State, id: Id)
    requires Draining(s) && cfg.limit >= 1 && id in s.rows && !s.rows[id].Terminal()
    ensures DeliverableWithin(cfg, s, id, StepsLeft(s))
    decreases StepsLeft(s)
  {
    if s.tasks != map[] {
      var t, s3 := FinishOne(cfg, s);
      if s.tasks[t].id == id {
        assert DeliverableWithin(cfg, s3, id, 0);
        Longer(cfg, s, id, 0 + 3, StepsLeft(s));
      } else {
        Drain(cfg, s3, id);
      }
    } else {
      WaitingIsPending(s, id);
      var s2 := TickAll(cfg, s);
      Drain(cfg, s2, id);
      Longer(cfg, s, id, StepsLeft(s2) + 2, StepsLeft(s));
    }
  }

  lemma FinishOne(cfg: Config, s: State) returns (t: nat, s3: State)
    requires Draining(s) && s.tasks != map[]
    ensures t in s.tasks && s.tasks[t].id in s.rows && Draining(s3) && StepsLeft(s3) + 3 == StepsLeft(s)
    ensures s3.rows.Keys == s.rows.Keys && s3.rows[s.tasks[t].id].status == Delivered
    ensures forall id | id in s.rows && id != s.tasks[t].id :: s3.rows[id] == s.rows[id]
    ensures forall id, n: nat | DeliverableWithin(cfg, s3, id, n) :: DeliverableWithin(cfg, s, id, n + 3)
  {
    t := Pick(s.tasks.Keys);
    assert NotBegun(s, t);
    s3 := FinishTask(cfg, s, t);
    TaskFinished(s, t, s3);
    TaskCounts(s, t, s3);
  }

  lemma WaitingIsPending(s: State, id: Id)
    requires Draining(s) && s.tasks == map[] && id in s.rows && !s.rows[id].Terminal()
    ensures s.rows[id].status == Pending && WithStatus(s.rows, Pending) != {}
  {
    assert s.rows[id].status == Processing ==> HasItsTask(s, id);
    assert s.rows[id].status == Pending;
    assert id in WithStatus(s.rows, Pending);
  }

  lemma LateEnough(rows: Rows, clock: int) returns (t: int)
    ensures t >= clock
    ensures forall id | id in rows :: rows[id].nextAttemptAt <= t
  {
    var due := map id | id in rows :: rows[id].nextAttemptAt;
    t := UpperBound(due, clock);
    assert forall id | id in rows :: due[id] <= t;
  }

  /** Stop if running, start again, wait until everything is due. */
  lemma StartOver(cfg: Config, s: State) returns (s3: State)
    requires Sane(s)
    ensures Draining(s3) && s3.rows.Keys == s.rows.Keys
    ensures WithStatus(s3.rows, Pending) == WithStatus(s.rows, Pending) + WithStatus(s.rows, Processing)
    ensures WithStatus(s3.rows, Processing) == {}
    ensures forall id, n: nat | DeliverableWithin(cfg, s3, id, n) :: DeliverableWithin(cfg, s, id, n + 3)
  {
    var s1 := s;
    if s.up {
      StepSane(cfg, s, Crash);
      s1 := Apply(cfg, s, Crash);
    }
    var t := LateEnough(s1.rows, s1.clock);
    s3 := RestartAndWait(cfg, s1, t);
    forall id, n: nat | DeliverableWithin(cfg, s3, id, n) ensures DeliverableWithin(cfg, s, id, n + 3) {
      assert DeliverableWithin(cfg, s1, id, n + 2);
      if s.up { Then(cfg, s, Crash, id, n + 2); } else { Longer(cfg, s, id, n + 2, n + 3); }
    }
  }

  lemma RestartAndWait(cfg: Config, s: State, t: int) returns (s2: State)
    requires Sane(s) && !s.up && t >= s.clock && forall id | id in s.rows :: s.rows[id].nextAttemptAt <= t
    ensures Draining(s2) && s2.rows.Keys == s.rows.Keys
    ensures WithStatus(s2.rows, Pending) == WithStatus(s.rows, Pending) + WithStatus(s.rows, Processing)
    ensures WithStatus(s2.rows, Processing) == {}
    ensures forall id, n: nat | DeliverableWithin(cfg, s2, id, n) :: DeliverableWithin(cfg, s, id, n + 2)
  {
    StepSane(cfg, s, Restart);
    var s1 := Apply(cfg, s, Restart);
    StepSane(cfg, s1, Advance(t));
    s2 := Apply(cfg, s1, Advance(t));
    forall id, n: nat | DeliverableWithin(cfg, s2, id, n) ensures DeliverableWithin(cfg, s, id, n + 2) {
      Then(cfg, s1, Advance(t), id, n);
      Then(cfg, s, Restart, id, n + 1);
    }
  }

  /** Whatever crashed, was lost or overwritten on the way, a delivery that is
      not terminal can be delivered within three steps of restart and five for
      each row that is not terminal. */
  lemma AlwaysRecoverable(cfg: Config, b: seq<State>, steps: seq<Step>, i: nat, id: Id)
    requires IsService(cfg, b, steps) && i < |b| && cfg.limit >= 1
    requires id in b[i].rows && !b[i].rows[id].Terminal()
    ensures DeliverableWithin(cfg, b[i], id, 3 + 5 * |WithStatus(b[i].rows, Pending) + WithStatus(b[i].rows, Processing)|)
  {
    RunSane(cfg, b, steps, i);
    var s := StartOver(cfg, b[i]);
    assert id in WithStatus(s.rows, Pending);
    Drain(cfg, s, id);
  }
}
