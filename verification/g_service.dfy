/** g's tick, task and handlers as they are written, and that what they do are
    runs of the protocol. */
module GService {
  import opened Common
  import opened Selection
  import opened GProtocol
  import GDue
  import Backoff

  datatype Requeue = NotFound | Conflict(status: Status) | Internal | Requeued

  /** The columns that the claim returns. */
  datatype ClaimedJob = ClaimedJob(id: Id, attempts: int, maxAttempts: int)
  {
    function Task(now: int): Task {
      GProtocol.Task(id, attempts, maxAttempts, now, None, None)
    }
  }

  function Returned(rows: Rows, batch: seq<Id>): seq<ClaimedJob>
    requires forall i | 0 <= i < |batch| :: batch[i] in rows
  {
    seq(|batch|, i requires 0 <= i < |batch| => ClaimedJob(batch[i], rows[batch[i]].attempts, rows[batch[i]].maxAttempts))
  }

  function Spawned(jobs: seq<ClaimedJob>, first: nat, now: int): map<nat, Task> {
    map t: nat | first <= t < first + |jobs| && Numbered(t, first, |jobs|) :: jobs[t - first].Task(now)
  }

  predicate IsNew(tasks: map<nat, Task>, t: nat, job: ClaimedJob, now: int) {
    t in tasks && tasks[t] == GProtocol.Task(job.id, job.attempts, job.maxAttempts, now, None, None)
  }

  predicate Finished(t: Task) {
    t.startedAt.Some? && t.result.Some?
  }

  /** Pending, or processing past the timeout, and due. */
  predicate Waits(cfg: Config, r: Row, now: int) {
    (r.status == Pending || (r.status == Processing && r.updatedAt < now - cfg.visibilityMs)) && r.nextAttemptAt <= now
  }

  /** What a tick takes from the rows it finds, on the columns. */
  ghost predicate TakesOldest(cfg: Config, rows: Rows, now: int, answer: seq<Id>) {
    && |answer| <= cfg.limit
    && (forall i | 0 <= i < |answer| :: answer[i] in rows && Waits(cfg, rows[answer[i]], now))
    && (forall i, j | 0 <= i < j < |answer| :: answer[i] != answer[j] && rows[answer[i]].nextAttemptAt <= rows[answer[j]].nextAttemptAt)
    && (forall id | id in rows && Waits(cfg, rows[id], now) && id !in answer ::
          |answer| == cfg.limit && forall i | 0 <= i < |answer| :: rows[answer[i]].nextAttemptAt <= rows[id].nextAttemptAt)
  }

  /** What it leaves. */
  ghost predicate Leaves(cfg: Config, rows: Rows, rows': Rows, now: int, answer: seq<Id>) {
    && rows'.Keys == rows.Keys
    && (forall id | id in rows ::
          rows'[id] ==
            if id in answer then rows[id].(status := Processing, updatedAt := now)
            else if rows[id].status == Processing && rows[id].updatedAt < now - cfg.visibilityMs then rows[id].(status := Pending, updatedAt := now)
            else rows[id])
  }

  /** Reclaiming lets exactly the waiting rows be selected, and keeps due times. */
  lemma ReclaimedRows(cfg: Config, rows: Rows, now: int)
    ensures var r := AfterReclaim(rows, now, cfg.visibilityMs);
      && r.Keys == rows.Keys
      && (forall id | id in rows :: r[id].nextAttemptAt == rows[id].nextAttemptAt)
      && (forall id | id in rows :: r[id].status == Pending && r[id].nextAttemptAt <= now <==> Waits(cfg, rows[id], now))
  {
  }

  lemma SelectedWaits(cfg: Config, rows: Rows, reclaimed: Rows, now: int, answer: seq<Id>)
    requires reclaimed.Keys == rows.Keys && forall id | id in rows :: reclaimed[id].nextAttemptAt == rows[id].nextAttemptAt
    requires forall id | id in rows :: reclaimed[id].status == Pending && reclaimed[id].nextAttemptAt <= now <==> Waits(cfg, rows[id], now)
    requires GDue.Selected(reclaimed, now, cfg.limit, answer)
    ensures TakesOldest(cfg, rows, now, answer)
  {
  }

  lemma TickTakes(cfg: Config, rows: Rows, now: int, answer: seq<Id>)
    requires Oldest(DueTimes(AfterReclaim(rows, now, cfg.visibilityMs), now), cfg.limit, answer)
    ensures TakesOldest(cfg, rows, now, answer)
    ensures Leaves(cfg, rows, AfterClaim(AfterReclaim(rows, now, cfg.visibilityMs), answer, now), now, answer)
  {
    var reclaimed := AfterReclaim(rows, now, cfg.visibilityMs);
    GDue.AnswerSelects(reclaimed, now, cfg.limit, answer);
    ReclaimedRows(cfg, rows, now);
    SelectedWaits(cfg, rows, reclaimed, now, answer);
    TickLeaves(cfg, rows, now, answer);
  }

  lemma TickLeaves(cfg: Config, rows: Rows, now: int, answer: seq<Id>)
    requires forall i | 0 <= i < |answer| :: answer[i] in rows && Waits(cfg, rows[answer[i]], now)
    ensures Leaves(cfg, rows, AfterClaim(AfterReclaim(rows, now, cfg.visibilityMs), answer, now), now, answer)
  {
  }

  /** The row that a finished task leaves, column by column. */
  function Recorded(rows: Rows, t: Task, draw: real): Rows
    requires Finished(t) && t.id in rows
  {
    var r, n, at := rows[t.id], t.attempts + 1, t.startedAt.value;
    rows[t.id :=
      match t.result.value
      case Ok => r.(status := Delivered, attempts := n, deliveredAt := Some(at), updatedAt := at, lastError := None)
      case Failed(err) =>
        if n >= t.maxAttempts then r.(status := DeadLettered, attempts := n, lastError := Some(err), updatedAt := at, deliveredAt := None)
        else r.(status := Pending, attempts := n, lastError := Some(err), nextAttemptAt := at + draw.Floor, updatedAt := at)]
  }

  /** `tasks` are the spawned tasks that have not ended. */
  class Service {
    const cfg: Config
    var rows: Rows
    var tasks: map<nat, Task>
    var nextTask: nat

    constructor (cfg: Config)
      ensures this.cfg == cfg && rows == map[] && tasks == map[] && nextTask == 0
    {
      this.cfg := cfg;
      rows, tasks, nextTask := map[], map[], 0;
    }

    method CreateWebhook(id: Id, destination: string, payload: string, maxAttempts: int, now: int, fault: bool) returns (ok: bool)
      modifies this`rows
      ensures ok == (!fault && id !in old(rows))
      ensures rows == if ok then old(rows)[id := FreshRow(destination, payload, maxAttempts, now)] else old(rows)
      ensures ok ==> rows[id] == Row(destination, payload, Pending, 0, maxAttempts, now, now, now, None, None)
    {
      ok := !fault && id !in rows;
      if ok {
        rows := rows[id := Row(destination, payload, Pending, 0, maxAttempts, now, now, now, None, None)];
      }
    }

    /** Startup. */
    method ResetProcessing(now: int) returns (n: nat)
      modifies this`rows
      ensures rows == AfterRestart(old(rows), now)
      ensures rows.Keys == old(rows).Keys && forall id | id in rows ::
        rows[id] == if old(rows)[id].status == Processing then old(rows)[id].(status := Pending, updatedAt := now) else old(rows)[id]
      ensures n == |set id | id in old(rows) && old(rows)[id].status == Processing|
    {
      var stuck := set id | id in rows && rows[id].status == Processing;
      rows := map id | id in rows :: if id in stuck then rows[id].(status := Pending, updatedAt := now) else rows[id];
      n := |stuck|;
    }

    /** First statement of `tick`. */
    method ReclaimStale(now: int) returns (n: nat)
      modifies this`rows
      ensures rows == AfterReclaim(old(rows), now, cfg.visibilityMs)
      ensures rows.Keys == old(rows).Keys && forall id | id in rows ::
        rows[id] == if old(rows)[id].status == Processing && old(rows)[id].updatedAt < now - cfg.visibilityMs
                    then old(rows)[id].(status := Pending, updatedAt := now) else old(rows)[id]
      ensures n == |set id | id in old(rows) && old(rows)[id].status == Processing && old(rows)[id].updatedAt < now - cfg.visibilityMs|
    {
      var stale := set id | id in rows && rows[id].status == Processing && rows[id].updatedAt < now - cfg.visibilityMs;
      rows := map id | id in rows :: if id in stale then rows[id].(status := Pending, updatedAt := now) else rows[id];
      n := |stale|;
    }

    /** Second statement of `tick`. `answer` is the order in which SQLite
        returns the rows. */
    method ClaimDue(now: int, answer: seq<Id>) returns (out: seq<ClaimedJob>)
      requires Oldest(DueTimes(rows, now), cfg.limit, answer)
      modifies this`rows
      ensures (forall i | 0 <= i < |answer| :: answer[i] in old(rows)) && rows == AfterClaim(old(rows), answer, now)
      ensures out == Returned(old(rows), answer)
      ensures GDue.Selected(old(rows), now, cfg.limit, answer)
      ensures rows.Keys == old(rows).Keys && forall id | id in rows ::
        rows[id] == if id in answer then old(rows)[id].(status := Processing, updatedAt := now) else old(rows)[id]
      ensures |out| == |answer| && forall i | 0 <= i < |out| ::
        out[i] == ClaimedJob(answer[i], old(rows)[answer[i]].attempts, old(rows)[answer[i]].maxAttempts)
    {
      GDue.AnswerSelects(rows, now, cfg.limit, answer);
      assert forall i | 0 <= i < |answer| :: answer[i] in DueTimes(rows, now);
      rows := map id | id in rows :: if id in answer then rows[id].(status := Processing, updatedAt := now) else rows[id];
      out := Returned(rows, answer);
    }

    /** The loop of `tick`: a task for each returned row. */
    method SpawnEach(jobs: seq<ClaimedJob>, now: int)
      modifies this`tasks, this`nextTask
      ensures nextTask == old(nextTask) + |jobs|
      ensures tasks == old(tasks) + Spawned(jobs, old(nextTask), now)
      ensures forall i | 0 <= i < |jobs| :: IsNew(tasks, old(nextTask) + i, jobs[i], now)
    {
      for i := 0 to |jobs|
        invariant nextTask == old(nextTask) + i && tasks == old(tasks) + Spawned(jobs[..i], old(nextTask), now)
      {
        SpawnNext(old(tasks), jobs, i, old(nextTask), now);
        tasks := tasks[nextTask := jobs[i].Task(now)];
        nextTask := nextTask + 1;
      }
      assert jobs[..|jobs|] == jobs;
      SpawnedAll(old(tasks), jobs, old(nextTask), now);
    }

    /** Either statement may fail, which ends the tick. */
    method Tick(now: int, reclaimFault: bool, claimFault: bool, answer: seq<Id>)
      requires Oldest(DueTimes(AfterReclaim(rows, now, cfg.visibilityMs), now), cfg.limit, answer)
      modifies this
      ensures reclaimFault ==> rows == old(rows) && tasks == old(tasks)
      ensures !reclaimFault && claimFault ==> rows == AfterReclaim(old(rows), now, cfg.visibilityMs) && tasks == old(tasks)
      ensures !reclaimFault && !claimFault ==>
        && (forall i | 0 <= i < |answer| :: answer[i] in AfterReclaim(old(rows), now, cfg.visibilityMs))
        && rows == AfterClaim(AfterReclaim(old(rows), now, cfg.visibilityMs), answer, now)
        && tasks == old(tasks) + NewTasks(AfterReclaim(old(rows), now, cfg.visibilityMs), answer, old(nextTask), now)
      ensures !reclaimFault && !claimFault ==> TakesOldest(cfg, old(rows), now, answer) && Leaves(cfg, old(rows), rows, now, answer)
    {
      TickTakes(cfg, rows, now, answer);
      if reclaimFault { return; }
      var _ := ReclaimStale(now);
      if claimFault { return; }
      SpawnedTasks(rows, answer, nextTask, now);
      var jobs := ClaimDue(now, answer);
      SpawnEach(jobs, now);
    }

    /** The end of `process_job`: `task` has its outcome, and `now` is the
        clock it read before sending. No statement looks at the row's status. */
    method Finalize(t: nat, draw: real, fault: bool)
      requires t in tasks && Finished(tasks[t])
      modifies this
      ensures tasks == old(tasks) - {t} && nextTask == old(nextTask)
      ensures rows == if fault then old(rows)
                      else AfterTask(old(rows), old(tasks)[t], old(tasks)[t].result.value, Backoff.GDelay(draw), old(tasks)[t].startedAt.value)
      ensures !fault && old(tasks)[t].id in old(rows) ==> rows == Recorded(old(rows), old(tasks)[t], draw)
    {
      var task := tasks[t];
      tasks := tasks - {t};
      if fault || task.id !in rows {
        return;
      }
      var attempts, now, row := task.attempts + 1, task.startedAt.value, rows[task.id];
      match task.result.value
      case Ok =>
        rows := rows[task.id := row.(status := Delivered, attempts := attempts, deliveredAt := Some(now), updatedAt := now, lastError := None)];
      case Failed(err) =>
        if attempts >= task.maxAttempts {
          rows := rows[task.id := row.(status := DeadLettered, attempts := attempts, lastError := Some(err), updatedAt := now, deliveredAt := None)];
        } else {
          var delay := Backoff.GDelay(draw);
          rows := rows[task.id := row.(status := Pending, attempts := attempts, lastError := Some(err), nextAttemptAt := now + delay, updatedAt := now)];
        }
    }

    /** `process_job` once it has its permit: read the clock, send, store. */
    method ProcessJob(t: nat, now: int, result: Result, draw: real, fault: bool)
      requires t in tasks && tasks[t].startedAt == None && tasks[t].result == None
      modifies this
      ensures tasks == old(tasks) - {t} && nextTask == old(nextTask)
      ensures rows == if fault then old(rows) else AfterTask(old(rows), old(tasks)[t], result, Backoff.GDelay(draw), now)
    {
      tasks := tasks[t := tasks[t].(startedAt := Some(now))];
      tasks := tasks[t := tasks[t].(result := Some(result))];
      Finalize(t, draw, fault);
    }

    method RequeueLookup(id: Id) returns (r: Option<Status>)
      ensures r == if id in rows then Some(rows[id].status) else None
    {
      r := if id in rows then Some(rows[id].status) else None;
    }

    method RequeueUpdate(id: Id, now: int, fault: bool) returns (ok: bool)
      modifies this`rows
      ensures ok == !fault && rows == if fault then old(rows) else AfterRequeue(old(rows), id, now)
      ensures !fault && id in old(rows) ==>
        rows == old(rows)[id := old(rows)[id].(status := Pending, attempts := 0, nextAttemptAt := now, updatedAt := now,
                                               lastError := None, deliveredAt := None)]
    {
      ok := !fault;
      if ok && id in rows {
        rows := rows[id := rows[id].(status := Pending, attempts := 0, nextAttemptAt := now, updatedAt := now, lastError := None, deliveredAt := None)];
      }
    }

    /** Nothing falls between the two statements here; the protocol lets other
        steps fall there. */
    method RequeueFromDlq(id: Id, now: int, readFault: bool, writeFault: bool) returns (r: Requeue)
      modifies this`rows
      ensures readFault ==> r == Internal
      ensures !readFault ==>
        r == if id !in old(rows) then NotFound
             else if old(rows)[id].status != DeadLettered then Conflict(old(rows)[id].status)
             else if writeFault then Internal
             else Requeued
      ensures rows == if r == Requeued then AfterRequeue(old(rows), id, now) else old(rows)
    {
      if readFault {
        return Internal;
      }
      var status := RequeueLookup(id);
      if status == None {
        return NotFound;
      }
      if status.value != DeadLettered {
        return Conflict(status.value);
      }
      var ok := RequeueUpdate(id, now, writeFault);
      return if ok then Requeued else Internal;
    }
  }

  lemma SpawnedAll(tasks: map<nat, Task>, jobs: seq<ClaimedJob>, first: nat, now: int)
    ensures forall i | 0 <= i < |jobs| :: IsNew(tasks + Spawned(jobs, first, now), first + i, jobs[i], now)
  {
    forall i | 0 <= i < |jobs| ensures IsNew(tasks + Spawned(jobs, first, now), first + i, jobs[i], now) {
      assert Numbered(first + i, first, |jobs|);
    }
  }

  lemma SpawnNext(tasks: map<nat, Task>, jobs: seq<ClaimedJob>, i: nat, first: nat, now: int)
    requires i < |jobs|
    ensures tasks + Spawned(jobs[..i + 1], first, now) == (tasks + Spawned(jobs[..i], first, now))[first + i := jobs[i].Task(now)]
  {
    var more, fewer := Spawned(jobs[..i + 1], first, now), Spawned(jobs[..i], first, now);
    assert forall t: nat | first <= t <= first + i :: Numbered(t, first, i + 1) && t in more;
    assert forall t: nat | first <= t < first + i :: Numbered(t, first, i) && t in fewer && more[t] == fewer[t];
  }

  /** The tasks spawned are those of the protocol. */
  lemma SpawnedTasks(rows: Rows, batch: seq<Id>, first: nat, now: int)
    requires forall i | 0 <= i < |batch| :: batch[i] in DueTimes(rows, now)
    ensures (forall i | 0 <= i < |batch| :: batch[i] in rows) && Spawned(Returned(rows, batch), first, now) == NewTasks(rows, batch, first, now)
  {
  }

  // ------------------------------------------------------ these are protocol steps

  /** A tick is the two steps Reclaim and Claim, at one reading of the clock. */
  lemma TickIsTwoSteps(cfg: Config, s: State, answer: seq<Id>) returns (s1: State, s2: State)
    requires s.up && s.ticker == None
    requires Oldest(DueTimes(AfterReclaim(s.rows, s.clock, cfg.visibilityMs), s.clock), cfg.limit, answer)
    ensures Enabled(cfg, s, Reclaim) && s1 == Apply(cfg, s, Reclaim)
    ensures Enabled(cfg, s1, Claim(answer, false)) && s2 == Apply(cfg, s1, Claim(answer, false))
    ensures var reclaimed := AfterReclaim(s.rows, s.clock, cfg.visibilityMs);
      && (forall i | 0 <= i < |answer| :: answer[i] in reclaimed)
      && s2.rows == AfterClaim(reclaimed, answer, s.clock)
      && s2.tasks == s.tasks + NewTasks(reclaimed, answer, s.nextTask, s.clock)
      && s2.nextTask == s.nextTask + |answer| && s2.ticker == None && s2.clock == s.clock
  {
    s1 := Apply(cfg, s, Reclaim);
    assert s1.rows == AfterReclaim(s.rows, s.clock, cfg.visibilityMs) && s1.ticker == Some(s.clock);
    ClaimIsAStep(cfg, s1, answer);
    s2 := Apply(cfg, s1, Claim(answer, false));
  }

  lemma ClaimIsAStep(cfg: Config, s: State, answer: seq<Id>)
    requires s.up && s.ticker == Some(s.clock) && Oldest(DueTimes(s.rows, s.clock), cfg.limit, answer)
    ensures Enabled(cfg, s, Claim(answer, false)) && forall i | 0 <= i < |answer| :: answer[i] in s.rows
    ensures var s' := Apply(cfg, s, Claim(answer, false));
      && s'.rows == AfterClaim(s.rows, answer, s.clock)
      && s'.tasks == s.tasks + NewTasks(s.rows, answer, s.nextTask, s.clock)
      && s'.nextTask == s.nextTask + |answer| && s'.ticker == None && s'.clock == s.clock
  {
    assert forall i | 0 <= i < |answer| :: answer[i] in DueTimes(s.rows, s.clock);
  }

  /** What `ProcessJob` leaves is what a run of the protocol leaves that takes
      only this task's steps and lets time pass while the request is out. */
  lemma ProcessIsARun(cfg: Config, s: State, t: nat, result: Result, draw: real, fault: bool, end: int) returns (b: seq<State>, steps: seq<Step>)
    requires t in s.tasks && s.tasks[t].startedAt == None && s.tasks[t].result == None && s.clock <= end
    requires var cap := Backoff.GCap(s.tasks[t].attempts + 1, cfg.baseMs, cfg.maxMs) as real; cap / 2.0 <= draw <= cap
    ensures IsRun(cfg, b, steps) && b[0] == s
    ensures var s' := b[|b| - 1];
      && s'.tasks == s.tasks - {t} && s'.nextTask == s.nextTask && s'.requeues == s.requeues && s'.clock == end
      && s'.rows == if fault then s.rows else AfterTask(s.rows, s.tasks[t], result, Backoff.GDelay(draw), s.clock)
  {
    b, steps := SendIsARun(cfg, s, t, result, end);
    var s3, st := b[|b| - 1], Step.Finalize(t, draw, fault);
    FinalizeStep(cfg, s3, st);
    b, steps := Append(cfg, b, steps, st);
    assert s3.tasks - {t} == s.tasks - {t};
  }

  /** What `RequeueFromDlq` leaves of a dead-lettered row is what its two steps leave. */
  lemma RequeueIsARun(cfg: Config, s: State, q: nat, id: Id, fault: bool) returns (b: seq<State>, steps: seq<Step>)
    requires s.up && q !in s.requeues && id in s.rows && s.rows[id].status == DeadLettered
    ensures IsRun(cfg, b, steps) && b[0] == s
    ensures var s', r := b[|b| - 1], s.rows[id];
      && s'.rows == (if fault then s.rows else s.rows[id := r.(
           status := Pending, attempts := 0, nextAttemptAt := s.clock, updatedAt := s.clock, lastError := None, deliveredAt := None)])
      && s'.requeues == s.requeues && s'.tasks == s.tasks && s'.clock == s.clock
  {
    b, steps := Append(cfg, [s], [], RequeueRead(q, id));
    b, steps := Append(cfg, b, steps, RequeueWrite(q, fault));
    assert b[|b| - 1].requeues == s.requeues;
  }

  lemma SendIsARun(cfg: Config, s: State, t: nat, result: Result, end: int) returns (b: seq<State>, steps: seq<Step>)
    requires t in s.tasks && s.tasks[t].startedAt == None && s.tasks[t].result == None && s.clock <= end
    ensures IsRun(cfg, b, steps) && b[0] == s
    ensures var s' := b[|b| - 1];
      && s'.tasks == s.tasks[t := s.tasks[t].(startedAt := Some(s.clock), result := Some(result))]
      && s'.rows == s.rows && s'.nextTask == s.nextTask && s'.requeues == s.requeues && s'.clock == end
  {
    b, steps := Append(cfg, [s], [], Begin(t));
    b, steps := Append(cfg, b, steps, Respond(t, result));
    b, steps := Append(cfg, b, steps, Advance(end));
  }

  lemma FinalizeStep(cfg: Config, s: State, st: Step)
    requires st.Finalize? && Enabled(cfg, s, st)
    ensures var s', task := Apply(cfg, s, st), s.tasks[st.t];
      && s'.tasks == s.tasks - {st.t} && s'.nextTask == s.nextTask && s'.requeues == s.requeues && s'.clock == s.clock
      && s'.rows == if st.fault then s.rows else AfterTask(s.rows, task, task.result.value, Backoff.GDelay(st.draw), task.startedAt.value)
  {
  }
}
