/** d's store and worker as they are written, and that what the worker does is
    a run of the protocol. */
module DWorker {
  import opened Common
  import opened Selection
  import opened DProtocol
  import opened TextSelection
  import DText
  import Backoff

  datatype Tables = Tables(jobs: Jobs, dead: Dead)

  /** What the caller of `redeliver` is told. */
  datatype Redelivery = NotFound | Requeued(job: Id) | Internal

  /** A job that a fetch did not select was not due, or as late as all it did. */
  predicate LeftOut(job: Job, out: seq<Held>, now: int, limit: nat) {
    job.status == Pending && DText.InEra(job.nextAttemptAt) && job.nextAttemptAt <= now ==>
      |out| == limit && forall i | 0 <= i < |out| :: out[i].job.nextAttemptAt <= job.nextAttemptAt
  }

  /** Pending and due jobs, without repetition and oldest first. */
  predicate OldestDue(out: seq<Held>, now: int, limit: nat) {
    && |out| <= limit
    && (forall i | 0 <= i < |out| :: out[i].job.status == Pending && out[i].job.nextAttemptAt <= now)
    && (forall i, j | 0 <= i < j < |out| :: out[i].id != out[j].id && out[i].job.nextAttemptAt <= out[j].job.nextAttemptAt)
  }

  lemma AllOldest(jobs: Jobs, now: int, limit: nat, answer: seq<Id>)
    requires DText.InEra(now) && FirstByText(DText.DueTexts(jobs, now), limit, answer) && DText.AllLegible(jobs, answer)
    ensures OldestDue(Batch(jobs, answer), now, limit)
  {
    DText.LegibleBatch(jobs, now, limit, answer);
  }

  lemma AllLeftOut(jobs: Jobs, now: int, limit: nat, answer: seq<Id>)
    requires DText.InEra(now) && FirstByText(DText.DueTexts(jobs, now), limit, answer) && DText.AllLegible(jobs, answer)
    ensures forall id | id in jobs && id !in answer :: LeftOut(jobs[id], Batch(jobs, answer), now, limit)
  {
    forall id | id in jobs && id !in answer ensures LeftOut(jobs[id], Batch(jobs, answer), now, limit) {
      if jobs[id].status == Pending && DText.InEra(jobs[id].nextAttemptAt) && jobs[id].nextAttemptAt <= now {
        DText.LegibleLeftOut(jobs, now, limit, answer, id);
      }
    }
  }

  // ------------------------------------------------------------------ the store

  /** `fault` parameters say which statement SQLite reports an error for. */
  class Db {
    var jobs: Jobs
    var dead: Dead

    constructor ()
      ensures jobs == map[] && dead == map[]
    {
      jobs, dead := map[], map[];
    }

    method Enqueue(id: Id, job: Job, fault: bool) returns (ok: bool)
      modifies this`jobs
      ensures ok == (!fault && id !in old(jobs))
      ensures jobs == if ok then old(jobs)[id := job] else old(jobs)
    {
      ok := !fault && id !in jobs;
      if ok { jobs := jobs[id := job]; }
    }

    /** `answer` is the order in which SQLite yields the selected rows; `None`
        when it fails or one of them cannot be read back. */
    method FetchDue(now: int, limit: nat, answer: seq<Id>, fault: bool) returns (r: Option<seq<Held>>)
      requires DText.InEra(now) && FirstByText(DText.DueTexts(jobs, now), limit, answer)
      ensures r.Some? <==> !fault && DText.AllLegible(jobs, answer)
      ensures r.Some? ==>
        var out := r.value;
        && |out| == |answer| && (forall i | 0 <= i < |out| :: answer[i] in jobs && out[i] == Held(answer[i], jobs[answer[i]]))
        && OldestDue(out, now, limit) && (forall id | id in jobs && id !in answer :: LeftOut(jobs[id], out, now, limit))
    {
      if fault || !DText.AllLegible(jobs, answer) {
        return None;
      }
      AllOldest(jobs, now, limit, answer);
      AllLeftOut(jobs, now, limit, answer);
      r := Some(Batch(jobs, answer));
    }

    method RecordAttempt(id: Id, attempts: nat, next: Option<int>, fault: bool)
      modifies this`jobs
      ensures fault || id !in old(jobs) ==> jobs == old(jobs)
      ensures !fault && id in old(jobs) ==>
        jobs == AfterAttempt(old(jobs), id, attempts, if next.Some? then next.value else old(jobs)[id].nextAttemptAt)
      ensures !fault && id in old(jobs) && next.Some? ==>
        jobs == old(jobs)[id := old(jobs)[id].(attempts := attempts, nextAttemptAt := next.value)]
    {
      if !fault && id in jobs {
        match next
        case Some(t) => jobs := jobs[id := jobs[id].(attempts := attempts, nextAttemptAt := t)];
        case None => jobs := jobs[id := jobs[id].(attempts := attempts)];
      }
    }

    method MarkDelivered(id: Id, fault: bool)
      modifies this`jobs
      ensures jobs == if fault then old(jobs) else AfterDelivered(old(jobs), id)
      ensures !fault && id in old(jobs) ==> jobs == old(jobs)[id := old(jobs)[id].(status := Delivered)]
    {
      if !fault && id in jobs {
        jobs := jobs[id := jobs[id].(status := Delivered)];
      }
    }

    method MoveToDlq(entry: Id, id: Id, job: Job, err: string, now: int, fault: bool, deleteFault: bool) returns (ok: bool)
      modifies this
      ensures Tables(jobs, dead) == AfterMove(Tables(old(jobs), old(dead)), entry, id, job, err, now, fault, deleteFault)
      ensures ok <==> !fault && !deleteFault && entry !in old(dead)
      ensures jobs == if ok then old(jobs) - {id} else old(jobs)
      ensures dead == if fault || entry in old(dead) then old(dead)
                      else old(dead)[entry := Entry(id, job.destination, job.payload, job.attempts, err, now)]
    {
      if fault || entry in dead {
        return false;
      }
      dead := dead[entry := EntryFor(id, job, err, now)];
      if deleteFault {
        return false;
      }
      jobs := jobs - {id};
      return true;
    }

    method GetDlq(entry: Id) returns (r: Option<Entry>)
      ensures r == if entry in dead then Some(dead[entry]) else None
    {
      r := if entry in dead then Some(dead[entry]) else None;
    }

    /** What `redeliver` does once it has found the entry and holds the lock. */
    method InsertAndDelete(entry: Id, found: Entry, id: Id, maxAttempts: nat, now: int, fault: bool, deleteFault: bool) returns (ok: bool)
      modifies this
      ensures ok == (!fault && !deleteFault && id !in old(jobs))
      ensures jobs == if fault || id in old(jobs) then old(jobs)
                      else old(jobs)[id := Job(found.destination, found.payload, 0, maxAttempts, now, now, Pending)]
      ensures dead == if ok then old(dead) - {entry} else old(dead)
    {
      ok := Enqueue(id, FreshJob(found.destination, found.payload, maxAttempts, now), fault);
      if ok {
        if deleteFault {
          return false;
        }
        dead := dead - {entry};
      }
    }

    /** Nothing falls between the lookup and the lock here; the protocol lets
        other calls fall there. */
    method Redeliver(entry: Id, id: Id, maxAttempts: nat, now: int, lookupFault: bool, fault: bool, deleteFault: bool) returns (r: Redelivery)
      modifies this
      ensures r.Internal? <==> lookupFault || (entry in old(dead) && (fault || deleteFault || id in old(jobs)))
      ensures r.NotFound? <==> !lookupFault && entry !in old(dead)
      ensures dead == if r == Requeued(id) then old(dead) - {entry} else old(dead)
      ensures jobs == if lookupFault || entry !in old(dead) || fault || id in old(jobs) then old(jobs)
                      else old(jobs)[id := Job(old(dead)[entry].destination, old(dead)[entry].payload, 0, maxAttempts, now, now, Pending)]
      ensures r.Requeued? ==> r.job == id
    {
      if lookupFault {
        return Internal;
      }
      var e := GetDlq(entry);
      if e == None {
        return NotFound;
      }
      var ok := InsertAndDelete(entry, e.value, id, maxAttempts, now, fault, deleteFault);
      return if ok then Requeued(id) else Internal;
    }
  }

  ghost function AfterMove(t: Tables, entry: Id, id: Id, job: Job, err: string, now: int, fault: bool, deleteFault: bool): Tables {
    if fault || entry in t.dead then t
    else Tables(if deleteFault then t.jobs else t.jobs - {id}, t.dead[entry := EntryFor(id, job, err, now)])
  }

  // ----------------------------------------------------------------- the worker

  /** What the world does while one job is processed. */
  datatype Env = Env(verdict: Verdict, at: int, jitter: real, entry: Id, fault: bool, deleteFault: bool)

  ghost function Processed(cfg: Config, t: Tables, h: Held, env: Env): Tables {
    if GoesToDlq(h.job, env.verdict) then
      AfterMove(t, env.entry, h.id, Moved(h.job, env.verdict), ErrorText(env.verdict), env.at, env.fault, env.deleteFault)
    else if env.fault then t
    else t.(jobs := RecordedJobs(cfg, t.jobs, h, env.verdict, env.jitter, env.at))
  }

  ghost function ProcessedAll(cfg: Config, t: Tables, todo: seq<Held>, envs: seq<Env>): Tables
    requires |envs| == |todo|
  {
    if todo == [] then t
    else
      var n := |todo| - 1;
      Processed(cfg, ProcessedAll(cfg, t, todo[..n], envs[..n]), todo[n], envs[n])
  }

  lemma ProcessedNext(cfg: Config, t: Tables, todo: seq<Held>, envs: seq<Env>, i: nat)
    requires |envs| == |todo| && i < |todo|
    ensures ProcessedAll(cfg, t, todo[..i + 1], envs[..i + 1]) == Processed(cfg, ProcessedAll(cfg, t, todo[..i], envs[..i]), todo[i], envs[i])
  {
    assert todo[..i + 1][..i] == todo[..i] && envs[..i + 1][..i] == envs[..i];
  }

  class Worker {
    const db: Db
    const cfg: Config

    constructor (db: Db, cfg: Config)
      ensures this.db == db && this.cfg == cfg
    {
      this.db, this.cfg := db, cfg;
    }

    method HandleFailure(h: Held, err: string, env: Env)
      requires env.verdict == Failed(err)
      modifies db
      ensures Tables(db.jobs, db.dead) == Processed(cfg, Tables(old(db.jobs), old(db.dead)), h, env)
    {
      var attempts := h.job.attempts + 1;
      if attempts >= h.job.maxAttempts {
        var _ := db.MoveToDlq(env.entry, h.id, h.job.(attempts := attempts), err, env.at, env.fault, env.deleteFault);
      } else {
        var delay := Backoff.DDelay(attempts, cfg.baseMs, cfg.maxMs, env.jitter);
        db.RecordAttempt(h.id, attempts, Some(env.at + NANOS_PER_MS * Wait(delay)), env.fault);
      }
    }

    method ProcessJob(h: Held, env: Env)
      modifies db
      ensures Tables(db.jobs, db.dead) == Processed(cfg, Tables(old(db.jobs), old(db.dead)), h, env)
    {
      match env.verdict
      case Blocked(err) =>
        var _ := db.MoveToDlq(env.entry, h.id, h.job, "blocked: " + err, env.at, env.fault, env.deleteFault);
      case Ok =>
        db.MarkDelivered(h.id, env.fault);
      case Failed(err) =>
        HandleFailure(h, err, env);
    }

    method ProcessAll(due: seq<Held>, envs: seq<Env>)
      requires |envs| == |due|
      modifies db
      ensures Tables(db.jobs, db.dead) == ProcessedAll(cfg, Tables(old(db.jobs), old(db.dead)), due, envs)
    {
      ghost var before := Tables(db.jobs, db.dead);
      for i := 0 to |due|
        invariant Tables(db.jobs, db.dead) == ProcessedAll(cfg, before, due[..i], envs[..i])
      {
        ProcessJob(due[i], envs[i]);
        ProcessedNext(cfg, before, due, envs, i);
      }
      assert due[..|due|] == due && envs[..|due|] == envs;
    }

    /** One turn of the loop of `run_worker`; a fetch that fails is logged. On
        readable times the fetch is the protocol's. */
    method Poll(now: int, answer: seq<Id>, fault: bool, envs: seq<Env>)
      requires DText.InEra(now) && FirstByText(DText.DueTexts(db.jobs, now), 10, answer) && |envs| == |answer|
      modifies db
      ensures forall i | 0 <= i < |answer| :: answer[i] in old(db.jobs)
      ensures fault || !DText.AllLegible(old(db.jobs), answer) ==> db.jobs == old(db.jobs) && db.dead == old(db.dead)
      ensures AllInEra(old(db.jobs)) ==> Oldest(DueTimes(old(db.jobs), now), FETCH_LIMIT, answer)
      ensures !fault && DText.AllLegible(old(db.jobs), answer) ==>
        Tables(db.jobs, db.dead) == ProcessedAll(cfg, Tables(old(db.jobs), old(db.dead)), Batch(old(db.jobs), answer), envs)
    {
      FetchFacts(db.jobs, now, answer);
      var fetched := db.FetchDue(now, FETCH_LIMIT, answer, fault);
      if fetched == None {
        return;
      }
      assert fetched.value == Batch(db.jobs, answer);
      ProcessAll(fetched.value, envs);
    }
  }

  /** What the text query selects; on readable times, what the protocol fetches. */
  lemma FetchFacts(jobs: Jobs, now: int, answer: seq<Id>)
    requires DText.InEra(now) && FirstByText(DText.DueTexts(jobs, now), FETCH_LIMIT, answer)
    ensures forall i | 0 <= i < |answer| :: answer[i] in jobs
    ensures AllInEra(jobs) ==> Oldest(DueTimes(jobs, now), FETCH_LIMIT, answer)
  {
    assert forall i | 0 <= i < |answer| :: answer[i] in DText.DueTexts(jobs, now);
    if AllInEra(jobs) { DText.TextQueryIsChronological(jobs, now, FETCH_LIMIT, answer); }
  }

  ghost predicate AllInEra(jobs: Jobs) {
    forall id | id in jobs :: DText.InEra(jobs[id].nextAttemptAt)
  }

  // ------------------------------------------------- the worker follows the protocol

  /** What `ProcessJob` leaves in the tables is what some run of the protocol,
      taking only this worker's steps and the clock, leaves there. */
  lemma ProcessIsARun(cfg: Config, s: State, env: Env) returns (b: seq<State>, steps: seq<Step>)
    requires s.lock.Free? && s.todo != [] && s.verdict == None
    requires s.clock <= env.at && Unused(s, env.entry) && 0.8 <= env.jitter < 1.2
    ensures IsRun(cfg, b, steps) && b[0] == s
    ensures var s' := b[|b| - 1];
      && Tables(s'.jobs, s'.dead) == Processed(cfg, Tables(s.jobs, s.dead), s.todo[0], env)
      && s'.lock.Free? && s'.todo == s.todo[1..] && s'.verdict == None && s'.requests == s.requests && s'.clock == env.at
  {
    b, steps := Append(cfg, [s], [], Judge(env.verdict));
    b, steps := Append(cfg, b, steps, Advance(env.at));
    b, steps := StoreIsARun(cfg, b, steps, env);
  }

  /** What `Redeliver` leaves once it has found its entry is what its three steps leave. */
  lemma RedeliverIsARun(cfg: Config, s: State, q: nat, entry: Id, id: Id, maxAttempts: nat, fault: bool, deleteFault: bool)
    returns (b: seq<State>, steps: seq<Step>)
    requires s.lock.Free? && q !in s.requests && entry in s.dead && Unused(s, id)
    ensures IsRun(cfg, b, steps) && b[0] == s
    ensures var s', e := b[|b| - 1], s.dead[entry];
      && s'.jobs == (if fault then s.jobs else s.jobs[id := Job(e.destination, e.payload, 0, maxAttempts, s.clock, s.clock, Pending)])
      && s'.dead == (if fault || deleteFault then s.dead else s.dead - {entry})
      && s'.lock.Free? && s'.requests == s.requests && s'.todo == s.todo && s'.verdict == s.verdict && s'.clock == s.clock
  {
    b, steps := Append(cfg, [s], [], Lookup(q, entry));
    b, steps := Append(cfg, b, steps, InsertJob(q, id, maxAttempts, fault));
    if !fault {
      b, steps := Append(cfg, b, steps, DeleteEntry(deleteFault));
    }
    assert b[|b| - 1].requests == s.requests;
  }

  lemma StoreIsARun(cfg: Config, b0: seq<State>, steps0: seq<Step>, env: Env) returns (b: seq<State>, steps: seq<Step>)
    requires IsRun(cfg, b0, steps0)
    requires var s := b0[|b0| - 1];
      s.lock.Free? && s.todo != [] && s.verdict == Some(env.verdict) && s.clock == env.at && Unused(s, env.entry)
    requires 0.8 <= env.jitter < 1.2
    ensures IsRun(cfg, b, steps) && b[0] == b0[0]
    ensures var s, s' := b0[|b0| - 1], b[|b| - 1];
      && Tables(s'.jobs, s'.dead) == Processed(cfg, Tables(s.jobs, s.dead), s.todo[0], env)
      && s'.lock.Free? && s'.todo == s.todo[1..] && s'.verdict == None && s'.requests == s.requests && s'.clock == env.at
  {
    if !GoesToDlq(b0[|b0| - 1].todo[0].job, env.verdict) {
      b, steps := Append(cfg, b0, steps0, Record(env.jitter, env.fault));
    } else {
      b, steps := Append(cfg, b0, steps0, InsertEntry(env.entry, env.fault));
      if !env.fault {
        b, steps := Append(cfg, b, steps, DeleteJob(env.deleteFault));
      }
    }
  }
}
