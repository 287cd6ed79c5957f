/** g: when the visibility timeout makes a claim a lease, and what goes wrong otherwise. */
module GLeases {
  import opened Common
  import opened Selection
  import opened GProtocol
  import Backoff

  /** No task outlives the visibility timeout of its claim, and no delivery has
      two requeue requests between their two statements. */
  ghost predicate Timely(cfg: Config, s: State) {
    && (forall t | t in s.tasks :: s.clock <= s.tasks[t].claimedAt + cfg.visibilityMs)
    && (forall q, r | q in s.requeues && r in s.requeues && s.requeues[q] == s.requeues[r] :: q == r)
  }

  ghost predicate AllTimely(cfg: Config, b: seq<State>) {
    forall i | 0 <= i < |b| :: Timely(cfg, b[i])
  }

  predicate HasTask(s: State, t: nat, id: Id) {
    t in s.tasks && s.tasks[t].id == id
  }

  predicate HasRequeue(s: State, q: nat, id: Id) {
    q in s.requeues && s.requeues[q] == id
  }

  ghost predicate LeaseOk(s: State, t: nat)
    requires t in s.tasks && s.tasks[t].id in s.rows
  {
    var task := s.tasks[t];
    var r := s.rows[task.id];
    r.status == Processing && r.updatedAt == task.claimedAt && r.attempts == task.attempts
  }

  /** One task at most, which holds the lease on the row; a requeue under way
      means that the row is still dead-lettered. */
  ghost predicate Leased(s: State, id: Id)
    requires Sane(s)
  {
    && (forall t, u | HasTask(s, t, id) && HasTask(s, u, id) :: t == u)
    && (forall t | HasTask(s, t, id) :: TaskOk(s, s.tasks[t]) && LeaseOk(s, t))
    && (forall q | HasRequeue(s, q, id) :: id in s.rows && s.rows[id].status == DeadLettered)
  }

  lemma StepLeased(cfg: Config, s: State, st: Step, id: Id)
    requires Sane(s) && Enabled(cfg, s, st) && Timely(cfg, s) && Sane(Apply(cfg, s, st)) && Leased(s, id)
    ensures Leased(Apply(cfg, s, st), id)
  {
    if st.Claim? && !st.fault {
      ClaimLeased(cfg, s, st, id);
    } else if st.Finalize? {
      FinalizeLeased(cfg, s, st, id);
    } else if st.Reclaim? {
      ReclaimLeased(cfg, s, st, id);
    } else if st.RequeueWrite? {
      RequeueLeased(cfg, s, st, id);
    } else if st.Begin? || st.Respond? {
      TaskStepLeased(cfg, s, st, id);
    } else {
      OtherLeased(cfg, s, st, id);
    }
  }

  lemma ClaimPicksPending(cfg: Config, s: State, st: Step, id: Id)
    requires Enabled(cfg, s, st) && st.Claim? && id in st.batch
    ensures id in s.rows && s.rows[id].status == Pending
  {
    assert id in DueTimes(s.rows, s.ticker.value);
  }

  /** A task after a claim: an old one whose row was not touched, or one of the new ones. */
  lemma ClaimTask(cfg: Config, s: State, st: Step, id: Id, t: nat)
    requires Sane(s) && Enabled(cfg, s, st) && Leased(s, id) && st.Claim? && !st.fault
    requires HasTask(Apply(cfg, s, st), t, id)
    ensures if id in st.batch then s.nextTask <= t < s.nextTask + |st.batch| && st.batch[t - s.nextTask] == id else HasTask(s, t, id)
    ensures TaskOk(Apply(cfg, s, st), Apply(cfg, s, st).tasks[t]) && LeaseOk(Apply(cfg, s, st), t)
  {
    StepTasks(cfg, s, st, t);
    if t in s.tasks {
      ClaimOldTask(cfg, s, st, id, t);
    } else {
      ClaimNewTask(cfg, s, st, id, t);
    }
  }

  lemma ClaimOldTask(cfg: Config, s: State, st: Step, id: Id, t: nat)
    requires Sane(s) && Enabled(cfg, s, st) && Leased(s, id) && st.Claim? && !st.fault && t in s.tasks
    requires HasTask(Apply(cfg, s, st), t, id) && id in Apply(cfg, s, st).rows
    ensures id !in st.batch && HasTask(s, t, id) && LeaseOk(Apply(cfg, s, st), t)
  {
    assert t < s.nextTask && HasTask(s, t, id) && LeaseOk(s, t);
    if id in st.batch { ClaimPicksPending(cfg, s, st, id); }
  }

  lemma ClaimNewTask(cfg: Config, s: State, st: Step, id: Id, t: nat)
    requires Enabled(cfg, s, st) && st.Claim? && !st.fault && t !in s.tasks
    requires HasTask(Apply(cfg, s, st), t, id) && id in Apply(cfg, s, st).rows
    ensures s.nextTask <= t < s.nextTask + |st.batch| && st.batch[t - s.nextTask] == id && LeaseOk(Apply(cfg, s, st), t)
  {
    assert st.batch[t - s.nextTask] == id;
    ClaimPicksPending(cfg, s, st, id);
  }

  lemma ClaimUnique(cfg: Config, s: State, st: Step, id: Id, t: nat, u: nat)
    requires Sane(s) && Enabled(cfg, s, st) && Leased(s, id) && st.Claim? && !st.fault
    requires HasTask(Apply(cfg, s, st), t, id) && HasTask(Apply(cfg, s, st), u, id)
    ensures t == u
  {
    ClaimTask(cfg, s, st, id, t);
    ClaimTask(cfg, s, st, id, u);
  }

  lemma ClaimRequeue(cfg: Config, s: State, st: Step, id: Id, q: nat)
    requires Sane(s) && Enabled(cfg, s, st) && Leased(s, id) && st.Claim?
    requires HasRequeue(Apply(cfg, s, st), q, id)
    ensures id in Apply(cfg, s, st).rows && Apply(cfg, s, st).rows[id].status == DeadLettered
  {
    assert HasRequeue(s, q, id);
    if id in st.batch { ClaimPicksPending(cfg, s, st, id); }
  }

  lemma ClaimLeased(cfg: Config, s: State, st: Step, id: Id)
    requires Sane(s) && Enabled(cfg, s, st) && Sane(Apply(cfg, s, st)) && Leased(s, id) && st.Claim? && !st.fault
    ensures Leased(Apply(cfg, s, st), id)
  {
    var s' := Apply(cfg, s, st);
    forall t, u | HasTask(s', t, id) && HasTask(s', u, id) ensures t == u { ClaimUnique(cfg, s, st, id, t, u); }
    forall t | HasTask(s', t, id) ensures TaskOk(s', s'.tasks[t]) && LeaseOk(s', t) { ClaimTask(cfg, s, st, id, t); }
    forall q | HasRequeue(s', q, id) ensures id in s'.rows && s'.rows[id].status == DeadLettered { ClaimRequeue(cfg, s, st, id, q); }
  }

  lemma FinalizeTask(cfg: Config, s: State, st: Step, id: Id, t: nat)
    requires Sane(s) && Enabled(cfg, s, st) && Leased(s, id) && st.Finalize?
    requires HasTask(Apply(cfg, s, st), t, id)
    ensures HasTask(s, t, id) && t != st.t && s.tasks[st.t].id != id
    ensures TaskOk(Apply(cfg, s, st), Apply(cfg, s, st).tasks[t]) && LeaseOk(Apply(cfg, s, st), t)
  {
    StepTasks(cfg, s, st, t);
    assert HasTask(s, t, id);
    assert HasTask(s, st.t, s.tasks[st.t].id);
    assert Apply(cfg, s, st).rows[id] == s.rows[id];
  }

  lemma FinalizeRequeue(cfg: Config, s: State, st: Step, id: Id, q: nat)
    requires Sane(s) && Enabled(cfg, s, st) && Leased(s, id) && st.Finalize?
    requires HasRequeue(Apply(cfg, s, st), q, id)
    ensures id in Apply(cfg, s, st).rows && Apply(cfg, s, st).rows[id].status == DeadLettered
  {
    assert HasRequeue(s, q, id);
    assert s.tasks[st.t].id == id ==> HasTask(s, st.t, id);
  }

  lemma FinalizeLeased(cfg: Config, s: State, st: Step, id: Id)
    requires Sane(s) && Enabled(cfg, s, st) && Sane(Apply(cfg, s, st)) && Leased(s, id) && st.Finalize?
    ensures Leased(Apply(cfg, s, st), id)
    ensures s.tasks[st.t].id == id ==> forall t :: !HasTask(Apply(cfg, s, st), t, id)
  {
    var s' := Apply(cfg, s, st);
    forall t | HasTask(s', t, id) ensures HasTask(s, t, id) && s.tasks[st.t].id != id && TaskOk(s', s'.tasks[t]) && LeaseOk(s', t) {
      FinalizeTask(cfg, s, st, id, t);
    }
    forall q | HasRequeue(s', q, id) ensures id in s'.rows && s'.rows[id].status == DeadLettered { FinalizeRequeue(cfg, s, st, id, q); }
  }

  lemma ReclaimLeased(cfg: Config, s: State, st: Step, id: Id)
    requires Sane(s) && Enabled(cfg, s, st) && Timely(cfg, s) && Sane(Apply(cfg, s, st)) && Leased(s, id) && st.Reclaim?
    ensures Leased(Apply(cfg, s, st), id)
  {
    var s' := Apply(cfg, s, st);
    ReclaimEffect(cfg, s, st);
    forall t | HasTask(s', t, id) ensures HasTask(s, t, id) && TaskOk(s', s'.tasks[t]) && LeaseOk(s', t) {
      assert HasTask(s, t, id) && LeaseOk(s, t);
    }
    assert forall q | HasRequeue(s', q, id) :: HasRequeue(s, q, id);
  }

  /** A reclaim only touches rows whose stamp is older than the timeout. */
  lemma ReclaimEffect(cfg: Config, s: State, st: Step)
    requires Enabled(cfg, s, st) && st.Reclaim?
    ensures var s' := Apply(cfg, s, st);
      && s'.tasks == s.tasks && s'.requeues == s.requeues && s'.rows.Keys == s.rows.Keys
      && forall id | id in s.rows && (s.rows[id].status != Processing || s.clock <= s.rows[id].updatedAt + cfg.visibilityMs) :: s'.rows[id] == s.rows[id]
  {
  }

  lemma RequeueLeased(cfg: Config, s: State, st: Step, id: Id)
    requires Sane(s) && Enabled(cfg, s, st) && Timely(cfg, s) && Sane(Apply(cfg, s, st)) && Leased(s, id) && st.RequeueWrite?
    ensures Leased(Apply(cfg, s, st), id)
  {
    var s' := Apply(cfg, s, st);
    if s.requeues[st.q] == id { assert HasRequeue(s, st.q, id); }
    forall t | HasTask(s', t, id) ensures HasTask(s, t, id) && TaskOk(s', s'.tasks[t]) && LeaseOk(s', t) {
      assert HasTask(s, t, id);
    }
    forall q | HasRequeue(s', q, id) ensures id in s'.rows && s'.rows[id].status == DeadLettered {
      assert HasRequeue(s, q, id) && q != st.q;
    }
  }

  lemma TaskStepLeased(cfg: Config, s: State, st: Step, id: Id)
    requires Sane(s) && Enabled(cfg, s, st) && Sane(Apply(cfg, s, st)) && Leased(s, id) && (st.Begin? || st.Respond?)
    ensures Leased(Apply(cfg, s, st), id)
  {
    var s' := Apply(cfg, s, st);
    forall t | HasTask(s', t, id) ensures HasTask(s, t, id) && TaskOk(s', s'.tasks[t]) && LeaseOk(s', t) {
      assert HasTask(s, t, id);
    }
    assert forall q | HasRequeue(s', q, id) :: HasRequeue(s, q, id);
  }

  lemma OtherLeased(cfg: Config, s: State, st: Step, id: Id)
    requires Sane(s) && Enabled(cfg, s, st) && Sane(Apply(cfg, s, st)) && Leased(s, id)
    requires st.Create? || (st.Claim? && st.fault) || st.RequeueRead? || st.Crash? || st.Restart? || st.Advance?
    ensures Leased(Apply(cfg, s, st), id)
  {
    var s' := Apply(cfg, s, st);
    forall t | HasTask(s', t, id) ensures HasTask(s, t, id) && TaskOk(s', s'.tasks[t]) && LeaseOk(s', t) {
      assert HasTask(s, t, id);
    }
    forall q | HasRequeue(s', q, id) ensures id in s'.rows && s'.rows[id].status == DeadLettered {
      assert HasRequeue(s, q, id) || (st.RequeueRead? && st.id == id);
    }
  }

  lemma {:induction false} RunLeased(cfg: Config, b: seq<State>, steps: seq<Step>, i: nat, id: Id)
    requires IsService(cfg, b, steps) && i < |b| && AllTimely(cfg, b)
    ensures Sane(b[i]) && Leased(b[i], id)
  {
    RunSane(cfg, b, steps, i);
    if i > 0 {
      RunLeased(cfg, b, steps, i - 1, id);
      StepLeased(cfg, b[i - 1], steps[i - 1], id);
    }
  }

  /** Lease safety: while every task ends within the visibility timeout of its
      claim and requeues of one delivery do not overlap, no two live tasks ever
      hold the same delivery, through ticks, crashes, restarts and requeues. */
  lemma LeasesExclude(cfg: Config, b: seq<State>, steps: seq<Step>, i: nat, t: nat, u: nat)
    requires IsService(cfg, b, steps) && i < |b| && AllTimely(cfg, b)
    requires t in b[i].tasks && u in b[i].tasks && b[i].tasks[t].id == b[i].tasks[u].id
    ensures t == u
  {
    RunLeased(cfg, b, steps, i, b[i].tasks[t].id);
    assert HasTask(b[i], t, b[i].tasks[t].id) && HasTask(b[i], u, b[i].tasks[t].id);
  }

  /** ... and a delivered row is never overwritten. */
  lemma {:induction false} DeliveredIsFinal(cfg: Config, b: seq<State>, steps: seq<Step>, i: nat, j: nat, id: Id)
    requires IsService(cfg, b, steps) && i <= j < |b| && AllTimely(cfg, b)
    requires id in b[i].rows && b[i].rows[id].status == Delivered
    ensures id in b[j].rows && b[j].rows[id] == b[i].rows[id]
    decreases j - i
  {
    if i < j {
      DeliveredIsFinal(cfg, b, steps, i, j - 1, id);
      RunLeased(cfg, b, steps, j - 1, id);
      DeliveredStays(cfg, b[j - 1], steps[j - 1], id);
    }
  }

  lemma DeliveredStays(cfg: Config, s: State, st: Step, id: Id)
    requires Sane(s) && Enabled(cfg, s, st) && Leased(s, id)
    requires id in s.rows && s.rows[id].status == Delivered
    ensures id in Apply(cfg, s, st).rows && Apply(cfg, s, st).rows[id] == s.rows[id]
  {
    assert st.Finalize? ==> HasTask(s, st.t, s.tasks[st.t].id);
    assert st.RequeueWrite? ==> HasRequeue(s, st.q, s.requeues[st.q]);
    if st.Claim? && id in st.batch { ClaimPicksPending(cfg, s, st, id); }
  }

  // --------------------------------------------------------- without the conditions

  /** The steps that can overwrite a delivered row, exactly: a task that is
      late, or a requeue whose status check is out of date. */
  lemma OverwritesExactly(cfg: Config, s: State, st: Step, id: Id)
    requires Sane(s) && Enabled(cfg, s, st)
    requires id in s.rows && s.rows[id].status == Delivered
    ensures Apply(cfg, s, st).rows[id].status != Delivered <==>
      || (st.Finalize? && !st.fault && HasTask(s, st.t, id) && s.tasks[st.t].result.value.Failed?)
      || (st.RequeueWrite? && !st.fault && HasRequeue(s, st.q, id))
  {
    if st.Claim? && id in st.batch { ClaimPicksPending(cfg, s, st, id); }
  }

  // A run in which a task is late, state by state: limit 2, visibility 1 ms.
  const WITNESS_CONFIG := Config(1, 50, 1, 1)

  function WitnessRow(status: Status, attempts: int, updatedAt: int, deliveredAt: Option<int>, err: Option<string>): Row {
    Row("to", "body", status, attempts, 2, 0, 0, updatedAt, deliveredAt, err)
  }

  function WitnessTask(claimedAt: int, startedAt: Option<int>, result: Option<Result>): Task {
    Task(1, 0, 2, claimedAt, startedAt, result)
  }

  function Witness(row: Row, ticker: Option<int>, tasks: map<nat, Task>, next: nat, clock: int, answers: seq<bool>, acknowledged: bool): State {
    State(map[1 := row], true, ticker, tasks, next, map[], clock, map[1 := Ledger(answers, 0, acknowledged)])
  }

  lemma NewTask(s: State, now: int)
    requires 1 in s.rows
    ensures NewTasks(s.rows, [1], s.nextTask, now)
      == map[s.nextTask := Task(1, s.rows[1].attempts, s.rows[1].maxAttempts, now, None, None)]
  {
    var tasks := NewTasks(s.rows, [1], s.nextTask, now);
    assert Numbered(s.nextTask, s.nextTask, 1);
    assert tasks.Keys == {s.nextTask};
  }

  /** The second half of a tick at `now` claims the one due row. */
  lemma ClaimOne(b0: seq<State>, steps0: seq<Step>, row: Row, now: int) returns (b: seq<State>, steps: seq<Step>)
    requires IsRun(WITNESS_CONFIG, b0, steps0) && now >= 0 && row.status == Pending && row.nextAttemptAt == 0
    requires var s := b0[|b0| - 1]; s.up && s.ticker == Some(now) && s.rows == map[1 := row]
    ensures IsRun(WITNESS_CONFIG, b, steps) && b0 <= b
    ensures var s := b0[|b0| - 1];
      b[|b| - 1] == s.(rows := map[1 := row.Leased(now)], ticker := None, nextTask := s.nextTask + 1,
                       tasks := s.tasks + map[s.nextTask := Task(1, row.attempts, row.maxAttempts, now, None, None)])
  {
    var s := b0[|b0| - 1];
    OnlyOne(DueTimes(s.rows, now), 50, 1);
    NewTask(s, now);
    assert AfterClaim(s.rows, [1], now) == map[1 := row.Leased(now)];
    b, steps := Append(WITNESS_CONFIG, b0, steps0, Claim([1], false));
  }

  /** Submitted, and the first half of a tick done. */
  lemma FirstTick() returns (b: seq<State>, steps: seq<Step>)
    ensures IsService(WITNESS_CONFIG, b, steps)
    ensures b[|b| - 1] == Witness(WitnessRow(Pending, 0, 0, None, None), Some(0), map[], 0, 0, [], false)
  {
    b, steps := Append(WITNESS_CONFIG, [Init()], [], Restart);
    b, steps := Append(WITNESS_CONFIG, b, steps, Create(1, "to", "body", 2));
    assert b[|b| - 1] == Witness(WitnessRow(Pending, 0, 0, None, None), None, map[], 0, 0, [], false);
    assert AfterReclaim(b[|b| - 1].rows, 0, 1) == b[|b| - 1].rows;
    b, steps := Append(WITNESS_CONFIG, b, steps, Reclaim);
  }

  /** Task 0 starts at 0 and is still under way at 5. */
  lemma FirstLease() returns (b: seq<State>, steps: seq<Step>)
    ensures IsService(WITNESS_CONFIG, b, steps)
    ensures b[|b| - 1] == Witness(WitnessRow(Processing, 0, 0, None, None), None, map[0 := WitnessTask(0, Some(0), None)], 1, 5, [], false)
  {
    b, steps := FirstTick();
    b, steps := ClaimOne(b, steps, WitnessRow(Pending, 0, 0, None, None), 0);
    assert b[|b| - 1] == Witness(WitnessRow(Processing, 0, 0, None, None), None, map[0 := WitnessTask(0, None, None)], 1, 0, [], false);
    b, steps := Append(WITNESS_CONFIG, b, steps, Begin(0));
    b, steps := Append(WITNESS_CONFIG, b, steps, Advance(5));
  }

  /** The tick at 5 reclaims the row and gives it to task 1. */
  lemma SecondLease() returns (b: seq<State>, steps: seq<Step>)
    ensures IsService(WITNESS_CONFIG, b, steps)
    ensures b[|b| - 1] == Witness(WitnessRow(Processing, 0, 5, None, None), None,
                                  map[0 := WitnessTask(0, Some(0), None), 1 := WitnessTask(5, None, None)], 2, 5, [], false)
  {
    b, steps := FirstLease();
    assert AfterReclaim(b[|b| - 1].rows, 5, 1) == map[1 := WitnessRow(Pending, 0, 5, None, None)];
    b, steps := Append(WITNESS_CONFIG, b, steps, Reclaim);
    b, steps := ClaimOne(b, steps, WitnessRow(Pending, 0, 5, None, None), 5);
    assert map[0 := WitnessTask(0, Some(0), None)] + map[1 := WitnessTask(5, None, None)]
        == map[0 := WitnessTask(0, Some(0), None), 1 := WitnessTask(5, None, None)];
  }

  /** Task 1 delivers. */
  lemma SecondDelivers(draw: real) returns (b: seq<State>, steps: seq<Step>)
    requires var cap := Backoff.GCap(1, 1, 1) as real; cap / 2.0 <= draw <= cap
    ensures IsService(WITNESS_CONFIG, b, steps)
    ensures b[|b| - 1] == Witness(WitnessRow(Delivered, 1, 5, Some(5), None), None, map[0 := WitnessTask(0, Some(0), None)], 2, 5, [true], true)
  {
    b, steps := SecondLease();
    b, steps := Append(WITNESS_CONFIG, b, steps, Begin(1));
    assert b[|b| - 1].tasks == map[0 := WitnessTask(0, Some(0), None), 1 := WitnessTask(5, Some(5), None)];
    b, steps := Append(WITNESS_CONFIG, b, steps, Respond(1, Ok));
    assert b[|b| - 1].tasks == map[0 := WitnessTask(0, Some(0), None), 1 := WitnessTask(5, Some(5), Some(Ok))];
    assert [] + [true] == [true];
    assert b[|b| - 1].ledger == map[1 := Ledger([true], 0, true)];
    assert b[|b| - 1] == Witness(WitnessRow(Processing, 0, 5, None, None), None,
                                 map[0 := WitnessTask(0, Some(0), None), 1 := WitnessTask(5, Some(5), Some(Ok))], 2, 5, [true], true);
    assert b[|b| - 1].tasks - {1} == map[0 := WitnessTask(0, Some(0), None)];
    b, steps := Append(WITNESS_CONFIG, b, steps, Finalize(1, draw, false));
  }

  /** A task that outlives its visibility timeout: the row is claimed again,
      delivered by the second task, and put back to pending by the first. */
  lemma LateTaskOverwrites() returns (b: seq<State>, steps: seq<Step>, i: nat)
    ensures IsService(WITNESS_CONFIG, b, steps) && i < |b| - 1
    ensures 1 in b[i].rows && b[i].rows[1].status == Delivered
    ensures 1 in b[|b| - 1].rows && b[|b| - 1].rows[1].status == Pending
  {
    var draw := Backoff.GCap(1, 1, 1) as real;
    b, steps := SecondDelivers(draw);
    i := |b| - 1;
    b, steps := Append(WITNESS_CONFIG, b, steps, Respond(0, Failed("timeout")));
    b, steps := Append(WITNESS_CONFIG, b, steps, Finalize(0, draw, false));
  }

  // ------------------------------------------------------------- requeues that race

  ghost predicate InTime(s: State) {
    forall t | t in s.tasks :: s.clock <= s.tasks[t].claimedAt + WITNESS_CONFIG.visibilityMs
  }

  ghost predicate PunctualRun(b: seq<State>, steps: seq<Step>) {
    IsService(WITNESS_CONFIG, b, steps) && forall i | 0 <= i < |b| :: InTime(b[i])
  }

  lemma Go(b: seq<State>, steps: seq<Step>, st: Step) returns (b': seq<State>, steps': seq<Step>)
    requires PunctualRun(b, steps) && Enabled(WITNESS_CONFIG, b[|b| - 1], st) && InTime(Apply(WITNESS_CONFIG, b[|b| - 1], st))
    ensures PunctualRun(b', steps') && b < b' && b'[|b'| - 1] == Apply(WITNESS_CONFIG, b[|b| - 1], st)
  {
    b', steps' := Append(WITNESS_CONFIG, b, steps, st);
  }

  /** Between two ticks at time 0, with one row. */
  predicate Resting(s: State, row: Row) {
    s.up && s.ticker == None && s.tasks == map[] && s.clock == 0 && s.rows == map[1 := row]
  }

  /** The tick at 0 leases the row. */
  lemma TickOnce(b0: seq<State>, steps0: seq<Step>, row: Row) returns (b: seq<State>, steps: seq<Step>)
    requires PunctualRun(b0, steps0) && Resting(b0[|b0| - 1], row) && row.status == Pending && row.nextAttemptAt == 0
    ensures PunctualRun(b, steps) && b0 <= b
    ensures var s := b0[|b0| - 1];
      b[|b| - 1] == s.(rows := map[1 := row.Leased(0)], nextTask := s.nextTask + 1,
                       tasks := map[s.nextTask := Task(1, row.attempts, row.maxAttempts, 0, None, None)])
  {
    assert AfterReclaim(map[1 := row], 0, 1) == map[1 := row];
    b, steps := Go(b0, steps0, Reclaim);
    var s := b[|b| - 1];
    assert s == b0[|b0| - 1].(ticker := Some(0));
    LeaseOnce(s, row);
    b, steps := Go(b, steps, Claim([1], false));
  }

  lemma LeaseOnce(s: State, row: Row)
    requires s.up && s.ticker == Some(0) && s.tasks == map[] && s.clock == 0 && s.rows == map[1 := row]
    requires row.status == Pending && row.nextAttemptAt == 0
    ensures Enabled(WITNESS_CONFIG, s, Claim([1], false))
    ensures Apply(WITNESS_CONFIG, s, Claim([1], false)) == s.(rows := map[1 := row.Leased(0)], ticker := None, nextTask := s.nextTask + 1,
      tasks := map[s.nextTask := Task(1, row.attempts, row.maxAttempts, 0, None, None)])
  {
    OnlyOne(DueTimes(s.rows, 0), 50, 1);
    NewTask(s, 0);
    assert AfterClaim(s.rows, [1], 0) == map[1 := row.Leased(0)];
  }

  /** One attempt, begun and ended at once. */
  lemma Attempt(b0: seq<State>, steps0: seq<Step>, row: Row, result: Result) returns (b: seq<State>, steps: seq<Step>, row': Row)
    requires PunctualRun(b0, steps0) && Resting(b0[|b0| - 1], row) && row.status == Pending && row.nextAttemptAt == 0
    requires row.attempts == 0 && row.maxAttempts == 1
    ensures PunctualRun(b, steps) && b0 < b && Resting(b[|b| - 1], row') && b[|b| - 1].requeues == b0[|b0| - 1].requeues
    ensures row'.status == (if result.Ok? then Delivered else DeadLettered) && row'.maxAttempts == 1
  {
    var t, draw := b0[|b0| - 1].nextTask, Backoff.GCap(1, 1, 1) as real;
    b, steps := TickOnce(b0, steps0, row);
    b, steps := Go(b, steps, Begin(t));
    b, steps := Go(b, steps, Respond(t, result));
    var task := Task(1, 0, 1, 0, Some(0), Some(result));
    assert b[|b| - 1].tasks == map[t := task] && b[|b| - 1].tasks - {t} == map[];
    var rows := AfterTask(map[1 := row.Leased(0)], task, result, Backoff.GDelay(draw), 0);
    row' := rows[1];
    assert rows == map[1 := row'];
    b, steps := Go(b, steps, Finalize(t, draw, false));
  }

  /** The row is dead-lettered by its only attempt. */
  lemma DiesOnce() returns (b: seq<State>, steps: seq<Step>, row: Row)
    ensures PunctualRun(b, steps) && Resting(b[|b| - 1], row) && b[|b| - 1].requeues == map[]
    ensures row.status == DeadLettered && row.maxAttempts == 1
  {
    b, steps := Go([Init()], [], Restart);
    b, steps := Go(b, steps, Create(1, "to", "body", 1));
    b, steps, row := Attempt(b, steps, FreshRow("to", "body", 1, 0), Failed("HTTP"));
  }

  /** Two requeues that have both seen the dead letter; the first is written. */
  lemma TwoRequeues() returns (b: seq<State>, steps: seq<Step>, row: Row)
    ensures PunctualRun(b, steps) && Resting(b[|b| - 1], row) && b[|b| - 1].requeues == map[1 := 1]
    ensures row.status == Pending && row.nextAttemptAt == 0 && row.attempts == 0 && row.maxAttempts == 1
  {
    b, steps, row := DiesOnce();
    b, steps := Go(b, steps, RequeueRead(0, 1));
    b, steps := Go(b, steps, RequeueRead(1, 1));
    assert b[|b| - 1].requeues - {0} == map[1 := 1];
    b, steps := Go(b, steps, RequeueWrite(0, false));
    row := row.Requeued(0);
  }

  /** No task is late, but two requeues overlap: the row is delivered between
      their writes, and the second puts it back to pending. */
  lemma LateRequeueOverwrites() returns (b: seq<State>, steps: seq<Step>, i: nat)
    ensures PunctualRun(b, steps) && i < |b| - 1
    ensures 1 in b[i].rows && b[i].rows[1].status == Delivered
    ensures 1 in b[|b| - 1].rows && b[|b| - 1].rows[1].status == Pending
  {
    var row;
    b, steps, row := TwoRequeues();
    b, steps, row := Attempt(b, steps, row, Ok);
    i := |b| - 1;
    b, steps := Go(b, steps, RequeueWrite(1, false));
  }
}
