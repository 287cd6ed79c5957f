/** k: the job table, its statements, and the service as a transition system.
    Times are whole milliseconds here; KDb stores them as text and is shown to
    agree. */
module KProtocol {
  import opened Common
  import opened Selection
  import Backoff

  datatype Status = Pending | InFlight | Delivered | Dead

  datatype Job = Job(
    destination: string, payload: string, status: Status, attempts: int, maxAttempts: int,
    dueAt: int, lastError: Option<string>, createdAt: int, updatedAt: int)
  {
    function Claimed(now: int): Job {
      this.(status := InFlight, attempts := attempts + 1, updatedAt := now)
    }

    function Acknowledged(now: int): Job {
      this.(status := Delivered, lastError := None, updatedAt := now)
    }

    function Rescheduled(due: int, err: string, now: int): Job {
      this.(status := Pending, dueAt := due, lastError := Some(err), updatedAt := now)
    }

    function Buried(err: string, now: int): Job {
      this.(status := Dead, lastError := Some(err), updatedAt := now)
    }

    function Requeued(now: int): Job {
      this.(status := Pending, attempts := 0, dueAt := now, lastError := None, updatedAt := now)
    }
  }

  type Jobs = map<Id, Job>

  function FreshJob(destination: string, payload: string, maxAttempts: int, now: int): Job {
    Job(destination, payload, Pending, 0, maxAttempts, now, None, now, now)
  }

  function DueTimes(jobs: Jobs, now: int): map<Id, int> {
    map id | id in jobs && jobs[id].status == Pending && jobs[id].dueAt <= now :: jobs[id].dueAt
  }

  /** The transaction of `claim_due_jobs` for the selected ids. */
  function AfterClaim(jobs: Jobs, batch: seq<Id>, now: int): Jobs {
    map id | id in jobs :: if id in batch then jobs[id].Claimed(now) else jobs[id]
  }

  function AfterDelivered(jobs: Jobs, id: Id, now: int): Jobs {
    if id in jobs then jobs[id := jobs[id].Acknowledged(now)] else jobs
  }

  function AfterReschedule(jobs: Jobs, id: Id, due: int, err: string, now: int): Jobs {
    if id in jobs then jobs[id := jobs[id].Rescheduled(due, err, now)] else jobs
  }

  function AfterDeath(jobs: Jobs, id: Id, err: string, now: int): Jobs {
    if id in jobs then jobs[id := jobs[id].Buried(err, now)] else jobs
  }

  predicate Requeueable(jobs: Jobs, id: Id) {
    id in jobs && jobs[id].status == Dead
  }

  function AfterRequeue(jobs: Jobs, id: Id, now: int): Jobs {
    if Requeueable(jobs, id) then jobs[id := jobs[id].Requeued(now)] else jobs
  }

  // ------------------------------------------------------------- the protocol

  datatype Config = Config(limit: nat, baseMs: Backoff.u64, maxMs: Backoff.u64)

  datatype Result = Ok | Failed(err: string)

  datatype Held = Held(id: Id, job: Job)

  /** A worker's claimed jobs, the one being delivered first; `answer` is its
      outcome once known. */
  datatype Worker = Worker(batch: seq<Held>, answer: Option<Result>)

  /** `answers` is history: the outcomes of the sends since insert or requeue. */
  datatype State = State(jobs: Jobs, workers: seq<Worker>, clock: int, answers: map<Id, seq<bool>>)

  datatype Step =
    | Insert(id: Id, destination: string, payload: string, maxAttempts: int)
    | Claim(w: nat, batch: seq<Id>, fault: bool)
    | Deliver(w: nat, id: Id, result: Result)
    | Record(w: nat, id: Id, jitter: real, fault: bool)
    | Requeue(id: Id)
    | Die(w: nat)        // the worker task ends and forgets its batch
    | Crash              // all of them do
    | Advance(now: int)

  const IDLE := Worker([], None)

  function Init(workers: nat): State {
    State(map[], seq(workers, _ => IDLE), 0, map[])
  }

  predicate Heading(s: State, w: nat, id: Id) {
    w < |s.workers| && s.workers[w].batch != [] && s.workers[w].batch[0].id == id
  }

  /** MAX_ATTEMPTS is assumed to be at least 1. */
  ghost predicate Enabled(cfg: Config, s: State, st: Step) {
    match st
    case Insert(id, _, _, maxAttempts) => id !in s.jobs && maxAttempts >= 1
    case Claim(w, batch, _) => w < |s.workers| && s.workers[w] == IDLE && Oldest(DueTimes(s.jobs, s.clock), cfg.limit, batch)
    case Deliver(w, id, _) => Heading(s, w, id) && s.workers[w].answer == None
    case Record(w, id, jitter, _) => Heading(s, w, id) && s.workers[w].answer.Some? && -0.2 <= jitter < 0.2
    case Requeue(id) => true
    case Die(w) => w < |s.workers|
    case Crash => true
    case Advance(now) => s.clock <= now
  }

  function RecordedJobs(cfg: Config, jobs: Jobs, h: Held, result: Result, jitter: real, now: int): Jobs {
    match result
    case Ok => AfterDelivered(jobs, h.id, now)
    case Failed(err) =>
      if h.job.attempts >= h.job.maxAttempts then AfterDeath(jobs, h.id, err, now)
      else AfterReschedule(jobs, h.id, now + Backoff.KWait(h.job.attempts, cfg.baseMs, cfg.maxMs, jitter), err, now)
  }

  function Copies(jobs: Jobs, batch: seq<Id>): seq<Held>
    requires forall i | 0 <= i < |batch| :: batch[i] in jobs
  {
    seq(|batch|, i requires 0 <= i < |batch| => Held(batch[i], jobs[batch[i]]))
  }

  ghost function Apply(cfg: Config, s: State, st: Step): State
    requires Enabled(cfg, s, st)
  {
    match st
    case Insert(id, destination, payload, maxAttempts) =>
      s.(jobs := s.jobs[id := FreshJob(destination, payload, maxAttempts, s.clock)], answers := s.answers[id := []])
    case Claim(w, batch, fault) =>
      if fault then s
      else
        var jobs := AfterClaim(s.jobs, batch, s.clock);
        s.(jobs := jobs, workers := s.workers[w := Worker(Copies(jobs, batch), None)])
    case Deliver(w, id, result) =>
      s.(workers := s.workers[w := s.workers[w].(answer := Some(result))],
         answers := if id in s.answers then s.answers[id := s.answers[id] + [result.Ok?]] else s.answers)
    case Record(w, id, jitter, fault) =>
      var wk := s.workers[w];
      var s1 := s.(workers := s.workers[w := Worker(wk.batch[1..], None)]);
      if fault then s1
      else s1.(jobs := RecordedJobs(cfg, s.jobs, wk.batch[0], wk.answer.value, jitter, s.clock))
    case Requeue(id) =>
      if Requeueable(s.jobs, id) then s.(jobs := AfterRequeue(s.jobs, id, s.clock), answers := s.answers[id := []]) else s
    case Die(w) => s.(workers := s.workers[w := IDLE])
    case Crash => s.(workers := seq(|s.workers|, _ => IDLE))
    case Advance(now) => s.(clock := now)
  }

  ghost predicate IsRun(cfg: Config, b: seq<State>, steps: seq<Step>) {
    && |b| == |steps| + 1
    && forall i {:trigger steps[i]} | 0 <= i < |steps| :: Enabled(cfg, b[i], steps[i]) && b[i + 1] == Apply(cfg, b[i], steps[i])
  }

  ghost predicate IsService(cfg: Config, workers: nat, b: seq<State>, steps: seq<Step>) {
    IsRun(cfg, b, steps) && b[0] == Init(workers)
  }

  /** A run taken one step further. */
  lemma Append(cfg: Config, b: seq<State>, steps: seq<Step>, st: Step) returns (b': seq<State>, steps': seq<Step>)
    requires IsRun(cfg, b, steps) && Enabled(cfg, b[|b| - 1], st)
    ensures IsRun(cfg, b', steps') && b' == b + [Apply(cfg, b[|b| - 1], st)] && steps' == steps + [st]
  {
    b', steps' := b + [Apply(cfg, b[|b| - 1], st)], steps + [st];
    forall i | 0 <= i < |steps'| ensures Enabled(cfg, b'[i], steps'[i]) && b'[i + 1] == Apply(cfg, b'[i], steps'[i]) {
      if i < |steps| { assert steps'[i] == steps[i] && b'[i] == b[i] && b'[i + 1] == b[i + 1]; }
    }
  }

  // ------------------------------------------------------------------ ownership

  predicate HeldAt(s: State, w: int, i: int, id: Id) {
    0 <= w < |s.workers| && 0 <= i < |s.workers[w].batch| && s.workers[w].batch[i].id == id
  }

  ghost predicate IsHeld(s: State, id: Id) {
    exists w, i :: HeldAt(s, w, i, id)
  }

  /** A held copy is the row as claimed. */
  ghost predicate CopyOk(jobs: Jobs, h: Held) {
    h.id in jobs && jobs[h.id] == h.job && h.job.status == InFlight
  }

  /** One holder at most, and what it holds is exact. */
  ghost predicate Owned(s: State, id: Id) {
    && (forall w, i | HeldAt(s, w, i, id) :: CopyOk(s.jobs, s.workers[w].batch[i]))
    && (forall w, i, v, j | HeldAt(s, w, i, id) && HeldAt(s, v, j, id) :: w == v && i == j)
  }

  ghost predicate Counted(job: Job) {
    && job.maxAttempts >= 1
    && (job.status == Pending ==> 0 <= job.attempts < job.maxAttempts)
    && (job.status == InFlight || job.status == Delivered ==> 1 <= job.attempts <= job.maxAttempts)
    && (job.status == Dead ==> job.attempts == job.maxAttempts)
  }

  /** Where a job can be held after a step. */
  lemma StepHeld(cfg: Config, s: State, st: Step, w: int, i: int, id: Id)
    requires Enabled(cfg, s, st) && HeldAt(Apply(cfg, s, st), w, i, id)
    ensures st.Claim? && !st.fault && st.w == w ==> i < |st.batch| && st.batch[i] == id && id in s.jobs && s.jobs[id].status == Pending
    ensures st.Record? && st.w == w ==> HeldAt(s, w, i + 1, id) && Apply(cfg, s, st).workers[w].batch[i] == s.workers[w].batch[i + 1]
    ensures !(st.Claim? && !st.fault && st.w == w) && !(st.Record? && st.w == w) ==>
      HeldAt(s, w, i, id) && Apply(cfg, s, st).workers[w].batch[i] == s.workers[w].batch[i]
  {
    if st.Claim? && !st.fault && st.w == w {
      assert st.batch[i] in DueTimes(s.jobs, s.clock);
    }
  }

  lemma StepOwned(cfg: Config, s: State, st: Step, id: Id)
    requires Enabled(cfg, s, st) && Owned(s, id)
    ensures Owned(Apply(cfg, s, st), id)
  {
    var s' := Apply(cfg, s, st);
    if st.Claim? && !st.fault {
      ClaimOwned(cfg, s, st, id);
    } else if st.Record? {
      RecordOwned(cfg, s, st, id);
    } else {
      forall w, i | HeldAt(s', w, i, id) ensures HeldAt(s, w, i, id) && CopyOk(s'.jobs, s'.workers[w].batch[i]) {
        StepHeld(cfg, s, st, w, i, id);
      }
    }
  }

  lemma ClaimOwned(cfg: Config, s: State, st: Step, id: Id)
    requires Enabled(cfg, s, st) && Owned(s, id) && st.Claim? && !st.fault
    ensures Owned(Apply(cfg, s, st), id)
  {
    var s' := Apply(cfg, s, st);
    assert id in st.batch ==> id in DueTimes(s.jobs, s.clock);
    forall w, i | HeldAt(s', w, i, id)
      ensures CopyOk(s'.jobs, s'.workers[w].batch[i])
      ensures if id in st.batch then w == st.w && st.batch[i] == id else HeldAt(s, w, i, id)
    {
      StepHeld(cfg, s, st, w, i, id);
    }
  }

  lemma RecordOwned(cfg: Config, s: State, st: Step, id: Id)
    requires Enabled(cfg, s, st) && Owned(s, id) && st.Record?
    ensures Owned(Apply(cfg, s, st), id)
    ensures st.id == id ==> !IsHeld(Apply(cfg, s, st), id)
  {
    var s' := Apply(cfg, s, st);
    assert st.id == id ==> HeldAt(s, st.w, 0, id);
    forall w, i | HeldAt(s', w, i, id)
      ensures st.id != id && CopyOk(s'.jobs, s'.workers[w].batch[i])
      ensures HeldAt(s, w, if w == st.w then i + 1 else i, id)
    {
      StepHeld(cfg, s, st, w, i, id);
    }
  }

  lemma StepCounted(cfg: Config, s: State, st: Step, id: Id)
    requires Enabled(cfg, s, st) && Owned(s, id) && id in s.jobs && Counted(s.jobs[id])
    ensures id in Apply(cfg, s, st).jobs && Counted(Apply(cfg, s, st).jobs[id])
  {
    if st.Record? && st.id == id { assert HeldAt(s, st.w, 0, id); }
    if st.Claim? && id in st.batch { assert id in DueTimes(s.jobs, s.clock); }
  }

  lemma {:induction false} RunOwned(cfg: Config, workers: nat, b: seq<State>, steps: seq<Step>, i: nat, id: Id)
    requires IsService(cfg, workers, b, steps) && i < |b|
    ensures Owned(b[i], id) && b[i].answers.Keys == b[i].jobs.Keys
    ensures id in b[i].jobs ==> Counted(b[i].jobs[id])
  {
    if i > 0 {
      RunOwned(cfg, workers, b, steps, i - 1, id);
      StepOwned(cfg, b[i - 1], steps[i - 1], id);
      if id in b[i - 1].jobs { StepCounted(cfg, b[i - 1], steps[i - 1], id); }
    }
  }

  /** Any number of workers, crashes, lost writes and requeues: a job has at
      most one holder, the copy held is the row, and `attempts` fits the status. */
  lemma Ownership(cfg: Config, workers: nat, b: seq<State>, steps: seq<Step>, i: nat, id: Id)
    requires IsService(cfg, workers, b, steps) && i < |b| && id in b[i].jobs
    ensures forall w, k, v, l | HeldAt(b[i], w, k, id) && HeldAt(b[i], v, l, id) :: w == v && k == l
    ensures forall w, k | HeldAt(b[i], w, k, id) :: b[i].jobs[id] == b[i].workers[w].batch[k].job && b[i].jobs[id].status == InFlight
    ensures var job := b[i].jobs[id];
      && (job.status == Pending ==> 0 <= job.attempts < job.maxAttempts)
      && (job.status == InFlight || job.status == Delivered ==> 1 <= job.attempts <= job.maxAttempts)
      && (job.status == Dead ==> job.attempts == job.maxAttempts)
  {
    RunOwned(cfg, workers, b, steps, i, id);
  }

  lemma StepKeeps(cfg: Config, s: State, st: Step, id: Id)
    requires Enabled(cfg, s, st) && id in s.jobs
    ensures var j := Apply(cfg, s, st).jobs;
      id in j && j[id].destination == s.jobs[id].destination && j[id].payload == s.jobs[id].payload
      && j[id].maxAttempts == s.jobs[id].maxAttempts && j[id].createdAt == s.jobs[id].createdAt
  {
  }

  /** A delivered job never changes again. */
  lemma {:induction false} DeliveredIsFinal(cfg: Config, workers: nat, b: seq<State>, steps: seq<Step>, i: nat, j: nat, id: Id)
    requires IsService(cfg, workers, b, steps) && i <= j < |b|
    requires id in b[i].jobs && b[i].jobs[id].status == Delivered
    ensures id in b[j].jobs && b[j].jobs[id] == b[i].jobs[id]
    decreases j - i
  {
    if i < j {
      DeliveredIsFinal(cfg, workers, b, steps, i, j - 1, id);
      RunOwned(cfg, workers, b, steps, j - 1, id);
      NotHeldUnchanged(cfg, b[j - 1], steps[j - 1], id);
    }
  }

  lemma NotHeldUnchanged(cfg: Config, s: State, st: Step, id: Id)
    requires Enabled(cfg, s, st) && Owned(s, id) && id in s.jobs
    requires s.jobs[id].status == Delivered || (s.jobs[id].status == InFlight && !IsHeld(s, id))
    ensures id in Apply(cfg, s, st).jobs && Apply(cfg, s, st).jobs[id] == s.jobs[id]
    ensures !IsHeld(Apply(cfg, s, st), id)
  {
    var s' := Apply(cfg, s, st);
    if st.Record? && st.id == id { assert HeldAt(s, st.w, 0, id); }
    assert st.Claim? && id in st.batch ==> id in DueTimes(s.jobs, s.clock);
    forall w, i | HeldAt(s', w, i, id) ensures false {
      StepHeld(cfg, s, st, w, i, id);
    }
  }

  /** A job in flight that nobody holds stays so for ever: no step of the
      service recovers it. */
  lemma {:induction false} OrphansStay(cfg: Config, workers: nat, b: seq<State>, steps: seq<Step>, i: nat, j: nat, id: Id)
    requires IsService(cfg, workers, b, steps) && i <= j < |b|
    requires id in b[i].jobs && b[i].jobs[id].status == InFlight && !IsHeld(b[i], id)
    ensures id in b[j].jobs && b[j].jobs[id] == b[i].jobs[id] && !IsHeld(b[j], id)
    decreases j - i
  {
    if i < j {
      OrphansStay(cfg, workers, b, steps, i, j - 1, id);
      RunOwned(cfg, workers, b, steps, j - 1, id);
      NotHeldUnchanged(cfg, b[j - 1], steps[j - 1], id);
    }
  }

  /** A crash orphans every job then in flight. */
  lemma CrashOrphans(cfg: Config, workers: nat, b: seq<State>, steps: seq<Step>, i: nat, j: nat, id: Id)
    requires IsService(cfg, workers, b, steps) && i < j < |b| && steps[i] == Crash
    requires id in b[i].jobs && b[i].jobs[id].status == InFlight
    ensures id in b[j].jobs && b[j].jobs[id] == b[i].jobs[id] && !IsHeld(b[j], id)
  {
    assert b[i + 1] == Apply(cfg, b[i], steps[i]);
    OrphansStay(cfg, workers, b, steps, i + 1, j, id);
  }
}
