/** d: two tables and the service as a transition system. A job leaves one
    table for the other by two statements, INSERT then DELETE, under one lock;
    only a failing statement or a crash can fall between them. Times are
    nanoseconds; DText shows that the text d stores sorts the same way. */
module DProtocol {
  import opened Common
  import opened Selection
  import Backoff

  // `Dead` is declared by the source and written nowhere.
  datatype Status = Pending | Delivered | Dead

  datatype Job = Job(
    destination: string, payload: string, attempts: nat, maxAttempts: nat,
    nextAttemptAt: int, createdAt: int, status: Status)

  datatype Entry = Entry(jobId: Id, destination: string, payload: string, attempts: nat, lastError: string, movedAt: int)

  type Jobs = map<Id, Job>
  type Dead = map<Id, Entry>

  /** What became of one request, or that the destination was refused before it. */
  datatype Verdict = Ok | Failed(err: string) | Blocked(err: string)

  function FreshJob(destination: string, payload: string, maxAttempts: nat, now: int): Job {
    Job(destination, payload, 0, maxAttempts, now, now, Pending)
  }

  function DueTimes(jobs: Jobs, now: int): map<Id, int> {
    map id | id in jobs && jobs[id].status == Pending && jobs[id].nextAttemptAt <= now :: jobs[id].nextAttemptAt
  }

  /** `record_attempt` writes the number it is given. */
  function AfterAttempt(jobs: Jobs, id: Id, attempts: nat, next: int): Jobs {
    if id in jobs then jobs[id := jobs[id].(attempts := attempts, nextAttemptAt := next)] else jobs
  }

  function AfterDelivered(jobs: Jobs, id: Id): Jobs {
    if id in jobs then jobs[id := jobs[id].(status := Delivered)] else jobs
  }

  function EntryFor(id: Id, job: Job, err: string, now: int): Entry {
    Entry(id, job.destination, job.payload, job.attempts, err, now)
  }

  predicate LastAttempt(job: Job) {
    job.attempts + 1 >= job.maxAttempts
  }

  predicate GoesToDlq(job: Job, verdict: Verdict) {
    verdict.Blocked? || (verdict.Failed? && LastAttempt(job))
  }

  /** The copy handed to `move_to_dlq`: the failed send is counted, a refusal is not. */
  function Moved(job: Job, verdict: Verdict): Job {
    if verdict.Failed? then job.(attempts := job.attempts + 1) else job
  }

  function ErrorText(verdict: Verdict): string {
    match verdict
    case Ok => ""
    case Failed(err) => err
    case Blocked(err) => "blocked: " + err
  }

  const NANOS_PER_MS := 1_000_000
  const MAX_DURATION_MS := 0x7fff_ffff_ffff_ffff

  /** A delay too long for the date library becomes five seconds. */
  function Wait(delay: int): int {
    if delay <= MAX_DURATION_MS then delay else 5000
  }

  function RecordedJobs(cfg: Config, jobs: Jobs, h: Held, verdict: Verdict, jitter: real, now: int): Jobs {
    if verdict.Ok? then AfterDelivered(jobs, h.id)
    else
      var n := h.job.attempts + 1;
      AfterAttempt(jobs, h.id, n, now + NANOS_PER_MS * Wait(Backoff.DDelay(n, cfg.baseMs, cfg.maxMs, jitter)))
  }

  // --------------------------------------------------------------- the protocol

  const FETCH_LIMIT: nat := 10

  datatype Config = Config(baseMs: Backoff.u64, maxMs: Backoff.u64)

  datatype Held = Held(id: Id, job: Job)

  /** Who is between the two statements of a move, holding the connection. */
  datatype Lock =
    | Free
    | Moving(entry: Id)                  // the worker, for the first of its jobs
    | Redelivering(q: nat, job: Id)      // request `q`

  /** The submission a job or an entry descends from; for jobs, the answers to
      its sends, how many of them were not recorded, and whether it was refused. */
  datatype Ledger = Ledger(origin: Id, maxAttempts: nat, answers: seq<bool>, lost: nat, blocked: bool)

  /** A redeliver call that has read its entry. */
  datatype Request = Request(entryId: Id, entry: Entry)

  datatype Submission = Submission(destination: string, payload: string)

  /** `todo`, `verdict` belong to the one worker; `requests` are the redeliver
      calls that have found their entry. `ledger` and `accepted` are history. */
  datatype State = State(
    jobs: Jobs, dead: Dead, lock: Lock, todo: seq<Held>, verdict: Option<Verdict>,
    requests: map<nat, Request>, clock: int, ledger: map<Id, Ledger>, accepted: map<Id, Submission>)

  datatype Step =
    | Enqueue(id: Id, destination: string, payload: string, maxAttempts: nat)
    | Fetch(batch: seq<Id>)
    | Judge(outcome: Verdict)
    | Record(jitter: real, fault: bool)
    | InsertEntry(entry: Id, fault: bool)
    | DeleteJob(fault: bool)
    | Lookup(q: nat, entry: Id)
    | InsertJob(q: nat, id: Id, maxAttempts: nat, fault: bool)
    | DeleteEntry(fault: bool)
    | Crash
    | Advance(now: int)

  function Init(): State {
    State(map[], map[], Free, [], None, map[], 0, map[], map[])
  }

  predicate Judged(s: State) {
    s.todo != [] && s.verdict.Some?
  }

  predicate Unused(s: State, id: Id) {
    id !in s.jobs && id !in s.dead && id !in s.ledger && id !in s.accepted
  }

  /** UUIDs never repeat, so new ids are unused. */
  ghost predicate Enabled(s: State, st: Step) {
    match st
    case Enqueue(id, _, _, _) => s.lock.Free? && Unused(s, id)
    case Fetch(batch) => s.lock.Free? && s.todo == [] && Oldest(DueTimes(s.jobs, s.clock), FETCH_LIMIT, batch)
    case Judge(_) => s.todo != [] && s.verdict == None
    case Record(jitter, _) => s.lock.Free? && Judged(s) && !GoesToDlq(s.todo[0].job, s.verdict.value) && 0.8 <= jitter < 1.2
    case InsertEntry(entry, _) => s.lock.Free? && Judged(s) && GoesToDlq(s.todo[0].job, s.verdict.value) && Unused(s, entry)
    case DeleteJob(_) => s.lock.Moving? && Judged(s)
    case Lookup(q, entry) => s.lock.Free? && q !in s.requests && entry in s.dead
    case InsertJob(q, id, _, _) => s.lock.Free? && q in s.requests && Unused(s, id)
    case DeleteEntry(_) => s.lock.Redelivering? && s.lock.q in s.requests
    case Crash => true
    case Advance(now) => s.clock <= now
  }

  /** The worker goes on to its next job, whose last outcome it could not store if `lost`. */
  function NextJob(s: State, lost: bool): State
    requires s.todo != []
  {
    var s1 := s.(todo := s.todo[1..], verdict := None, lock := Free);
    if lost then Lose(s1, s.todo[0].id) else s1
  }

  function Lose(s: State, id: Id): State {
    if id in s.ledger then s.(ledger := s.ledger[id := s.ledger[id].(lost := s.ledger[id].lost + 1)]) else s
  }

  function Heard(l: Ledger, outcome: Verdict): Ledger {
    if outcome.Blocked? then l.(blocked := true) else l.(answers := l.answers + [outcome.Ok?])
  }

  function OriginOf(s: State, id: Id): Id {
    if id in s.ledger then s.ledger[id].origin else 0
  }

  function Batch(jobs: Jobs, batch: seq<Id>): seq<Held>
    requires forall i | 0 <= i < |batch| :: batch[i] in jobs
  {
    seq(|batch|, i requires 0 <= i < |batch| => Held(batch[i], jobs[batch[i]]))
  }

  ghost function Apply(cfg: Config, s: State, st: Step): State
    requires Enabled(s, st)
  {
    match st
    case Enqueue(id, destination, payload, maxAttempts) =>
      s.(jobs := s.jobs[id := FreshJob(destination, payload, maxAttempts, s.clock)],
         ledger := s.ledger[id := Ledger(id, maxAttempts, [], 0, false)],
         accepted := s.accepted[id := Submission(destination, payload)])
    case Fetch(batch) => s.(todo := Batch(s.jobs, batch))
    case Judge(outcome) =>
      var id := s.todo[0].id;
      s.(verdict := Some(outcome), ledger := if id in s.ledger then s.ledger[id := Heard(s.ledger[id], outcome)] else s.ledger)
    case Record(jitter, fault) =>
      if fault then NextJob(s, true)
      else NextJob(s.(jobs := RecordedJobs(cfg, s.jobs, s.todo[0], s.verdict.value, jitter, s.clock)), false)
    case InsertEntry(entry, fault) =>
      if fault then NextJob(s, true)
      else
        var h, v := s.todo[0], s.verdict.value;
        s.(lock := Moving(entry), dead := s.dead[entry := EntryFor(h.id, Moved(h.job, v), ErrorText(v), s.clock)],
           ledger := s.ledger[entry := Ledger(OriginOf(s, h.id), 0, [], 0, false)])
    case DeleteJob(fault) =>
      if fault then NextJob(s, true) else NextJob(s.(jobs := s.jobs - {s.todo[0].id}), false)
    case Lookup(q, entry) => s.(requests := s.requests[q := Request(entry, s.dead[entry])])
    case InsertJob(q, id, maxAttempts, fault) =>
      if fault then s.(requests := s.requests - {q})
      else
        var r := s.requests[q];
        s.(lock := Redelivering(q, id), jobs := s.jobs[id := FreshJob(r.entry.destination, r.entry.payload, maxAttempts, s.clock)],
           ledger := s.ledger[id := Ledger(OriginOf(s, r.entryId), maxAttempts, [], 0, false)])
    case DeleteEntry(fault) =>
      var s1 := s.(requests := s.requests - {s.lock.q}, lock := Free);
      if fault then s1 else s1.(dead := s.dead - {s.requests[s.lock.q].entryId})
    case Crash =>
      var s1 := s.(lock := Free, todo := [], verdict := None, requests := map[]);
      if Judged(s) then Lose(s1, s.todo[0].id) else s1
    case Advance(now) => s.(clock := now)
  }

  ghost predicate IsRun(cfg: Config, b: seq<State>, steps: seq<Step>) {
    && |b| == |steps| + 1
    && forall i {:trigger steps[i]} | 0 <= i < |steps| :: Enabled(b[i], steps[i]) && b[i + 1] == Apply(cfg, b[i], steps[i])
  }

  ghost predicate IsService(cfg: Config, b: seq<State>, steps: seq<Step>) {
    IsRun(cfg, b, steps) && b[0] == Init()
  }

  /** A run taken one step further. */
  lemma Append(cfg: Config, b: seq<State>, steps: seq<Step>, st: Step) returns (b': seq<State>, steps': seq<Step>)
    requires IsRun(cfg, b, steps) && Enabled(b[|b| - 1], st)
    ensures IsRun(cfg, b', steps') && b' == b + [Apply(cfg, b[|b| - 1], st)] && steps' == steps + [st]
  {
    b', steps' := b + [Apply(cfg, b[|b| - 1], st)], steps + [st];
    forall i | 0 <= i < |steps'| ensures Enabled(b'[i], steps'[i]) && b'[i + 1] == Apply(cfg, b'[i], steps'[i]) {
      if i < |steps| { assert steps'[i] == steps[i] && b'[i] == b[i] && b'[i + 1] == b[i + 1]; }
    }
  }

  // -------------------------------------------------------- what every run keeps

  function Budget(max: nat): nat { Max(1, max) }

  /** The row descends from an accepted submission and still carries its content. */
  ghost predicate Descends(s: State, id: Id, destination: string, payload: string) {
    && id in s.ledger && s.ledger[id].origin in s.accepted
    && s.accepted[s.ledger[id].origin] == Submission(destination, payload)
  }

  ghost predicate JobOk(s: State, id: Id)
    requires id in s.jobs
  {
    var job := s.jobs[id];
    && Descends(s, id, job.destination, job.payload)
    && job.maxAttempts == s.ledger[id].maxAttempts && job.attempts < Budget(job.maxAttempts)
    && job.status != Dead
    && (job.status == Delivered ==> true in s.ledger[id].answers)
  }

  ghost predicate EntryOk(s: State, id: Id, e: Entry) {
    && Descends(s, id, e.destination, e.payload)
    && e.jobId in s.ledger && e.attempts <= Budget(s.ledger[e.jobId].maxAttempts)
  }

  /** The worker's copies are the rows. */
  ghost predicate WorkerOk(s: State) {
    && (forall i | 0 <= i < |s.todo| :: s.todo[i].id in s.jobs && s.jobs[s.todo[i].id] == s.todo[i].job && s.todo[i].job.status == Pending)
    && (forall i, j | 0 <= i < j < |s.todo| :: s.todo[i].id != s.todo[j].id)
    && (s.todo == [] ==> s.verdict == None)
    && (Judged(s) && s.verdict.value.Ok? ==> s.todo[0].id in s.ledger && true in s.ledger[s.todo[0].id].answers)
  }

  ghost predicate LockOk(s: State) {
    match s.lock
    case Free => true
    case Moving(entry) =>
      && Judged(s) && GoesToDlq(s.todo[0].job, s.verdict.value)
      && entry in s.dead && s.dead[entry].jobId == s.todo[0].id && OriginOf(s, entry) == OriginOf(s, s.todo[0].id)
    case Redelivering(q, job) =>
      && q in s.requests && job in s.jobs && OriginOf(s, job) == OriginOf(s, s.requests[q].entryId)
  }

  ghost predicate Sane(s: State) {
    && (forall id | id in s.jobs :: JobOk(s, id))
    && (forall id | id in s.dead :: EntryOk(s, id, s.dead[id]))
    && (forall q | q in s.requests :: EntryOk(s, s.requests[q].entryId, s.requests[q].entry))
    && (forall id | id in s.accepted :: id in s.ledger && s.ledger[id].origin == id)
    && WorkerOk(s)
    && LockOk(s)
  }

  /** Nothing accepted is forgotten, and history only grows. */
  ghost predicate Grows(s: State, s': State) {
    && (forall id | id in s.accepted :: id in s'.accepted && s'.accepted[id] == s.accepted[id])
    && (forall id | id in s.ledger :: id in s'.ledger && LedgerGrows(s.ledger[id], s'.ledger[id]))
  }

  predicate LedgerGrows(l: Ledger, l': Ledger) {
    l'.origin == l.origin && l'.maxAttempts == l.maxAttempts && l.answers <= l'.answers
  }

  lemma StepGrows(cfg: Config, s: State, st: Step)
    requires Enabled(s, st)
    ensures Grows(s, Apply(cfg, s, st))
  {
    forall id | id in s.ledger
      ensures id in Apply(cfg, s, st).ledger && LedgerGrows(s.ledger[id], Apply(cfg, s, st).ledger[id])
    {
      StepLedger(cfg, s, st, id);
    }
  }

  lemma StepLedger(cfg: Config, s: State, st: Step, id: Id)
    requires Enabled(s, st) && id in s.ledger
    ensures id in Apply(cfg, s, st).ledger && LedgerGrows(s.ledger[id], Apply(cfg, s, st).ledger[id])
  {
    if st.Enqueue? || st.InsertJob? {
      NewJobLedger(cfg, s, st, id);
    } else if st.Judge? || st.Crash? {
      HeardLedger(cfg, s, st, id);
    } else if st.Record? || st.DeleteJob? {
      NextLedger(cfg, s, st, id);
    } else if st.InsertEntry? {
      EntryLedger(cfg, s, st, id);
    }
  }

  lemma NewJobLedger(cfg: Config, s: State, st: Step, id: Id)
    requires Enabled(s, st) && id in s.ledger && (st.Enqueue? || st.InsertJob?)
    ensures id in Apply(cfg, s, st).ledger && Apply(cfg, s, st).ledger[id] == s.ledger[id]
  {
  }

  lemma HeardLedger(cfg: Config, s: State, st: Step, id: Id)
    requires Enabled(s, st) && id in s.ledger && (st.Judge? || st.Crash?)
    ensures id in Apply(cfg, s, st).ledger && LedgerGrows(s.ledger[id], Apply(cfg, s, st).ledger[id])
  {
  }

  lemma NextLedger(cfg: Config, s: State, st: Step, id: Id)
    requires Enabled(s, st) && id in s.ledger && (st.Record? || st.DeleteJob?)
    ensures id in Apply(cfg, s, st).ledger && LedgerGrows(s.ledger[id], Apply(cfg, s, st).ledger[id])
  {
  }

  lemma EntryLedger(cfg: Config, s: State, st: Step, id: Id)
    requires Enabled(s, st) && id in s.ledger && st.InsertEntry?
    ensures id in Apply(cfg, s, st).ledger && LedgerGrows(s.ledger[id], Apply(cfg, s, st).ledger[id])
  {
  }

  lemma JobCarries(s: State, s': State, id: Id)
    requires id in s.jobs && JobOk(s, id) && Grows(s, s') && id in s'.jobs && s'.jobs[id] == s.jobs[id]
    ensures JobOk(s', id)
  {
    assert s.ledger[id].answers <= s'.ledger[id].answers;
  }

  lemma EntryCarries(s: State, s': State, id: Id, e: Entry)
    requires EntryOk(s, id, e) && Grows(s, s')
    ensures EntryOk(s', id, e)
  {
  }

  /** The three statements that write a job. */
  lemma StepJobs(cfg: Config, s: State, st: Step, id: Id)
    requires Enabled(s, st) && id in Apply(cfg, s, st).jobs
    requires !st.Enqueue? && !st.InsertJob? && !st.Record?
    ensures id in s.jobs && Apply(cfg, s, st).jobs[id] == s.jobs[id]
  {
  }

  lemma RecordJob(cfg: Config, s: State, st: Step, id: Id)
    requires Sane(s) && Enabled(s, st) && st.Record? && id in s.jobs
    ensures id in Apply(cfg, s, st).jobs && JobOk(Apply(cfg, s, st), id)
  {
    var s' := Apply(cfg, s, st);
    StepGrows(cfg, s, st);
    assert JobOk(s, id);
    if id != s.todo[0].id || st.fault {
      JobCarries(s, s', id);
    } else {
      assert s'.ledger[id] == s.ledger[id];
    }
  }

  lemma StepJob(cfg: Config, s: State, st: Step, id: Id)
    requires Sane(s) && Enabled(s, st) && id in Apply(cfg, s, st).jobs
    ensures JobOk(Apply(cfg, s, st), id)
  {
    if st.Record? {
      RecordedJob(cfg, s, st, id);
    } else if (st.Enqueue? || st.InsertJob?) && id == st.id {
      NewJob(cfg, s, st);
    } else {
      if st.Enqueue? || st.InsertJob? { OldJobs(cfg, s, st, id); } else { StepJobs(cfg, s, st, id); }
      JobStays(cfg, s, st, id);
    }
  }

  lemma RecordedJob(cfg: Config, s: State, st: Step, id: Id)
    requires Sane(s) && Enabled(s, st) && st.Record? && id in Apply(cfg, s, st).jobs
    ensures JobOk(Apply(cfg, s, st), id)
  {
    RecordJob(cfg, s, st, id);
  }

  lemma OldJobs(cfg: Config, s: State, st: Step, id: Id)
    requires Enabled(s, st) && (st.Enqueue? || st.InsertJob?) && id != st.id && id in Apply(cfg, s, st).jobs
    ensures id in s.jobs && Apply(cfg, s, st).jobs[id] == s.jobs[id]
  {
  }

  lemma JobStays(cfg: Config, s: State, st: Step, id: Id)
    requires Enabled(s, st) && id in s.jobs && JobOk(s, id) && id in Apply(cfg, s, st).jobs && Apply(cfg, s, st).jobs[id] == s.jobs[id]
    ensures JobOk(Apply(cfg, s, st), id)
  {
    StepGrows(cfg, s, st);
    JobCarries(s, Apply(cfg, s, st), id);
  }

  lemma NewJob(cfg: Config, s: State, st: Step)
    requires Sane(s) && Enabled(s, st) && (st.Enqueue? || st.InsertJob?) && st.id in Apply(cfg, s, st).jobs
    ensures JobOk(Apply(cfg, s, st), st.id)
  {
    if st.InsertJob? {
      assert EntryOk(s, s.requests[st.q].entryId, s.requests[st.q].entry);
    }
  }

  lemma StepDead(cfg: Config, s: State, st: Step, id: Id)
    requires Enabled(s, st) && id in Apply(cfg, s, st).dead && !(st.InsertEntry? && id == st.entry)
    ensures id in s.dead && Apply(cfg, s, st).dead[id] == s.dead[id]
  {
  }

  lemma StepEntry(cfg: Config, s: State, st: Step, id: Id)
    requires Sane(s) && Enabled(s, st) && id in Apply(cfg, s, st).dead
    ensures EntryOk(Apply(cfg, s, st), id, Apply(cfg, s, st).dead[id])
  {
    if st.InsertEntry? && id == st.entry {
      NewEntry(cfg, s, st);
    } else {
      StepDead(cfg, s, st, id);
      EntryStays(cfg, s, st, id, s.dead[id]);
    }
  }

  lemma EntryStays(cfg: Config, s: State, st: Step, id: Id, e: Entry)
    requires Enabled(s, st) && EntryOk(s, id, e)
    ensures EntryOk(Apply(cfg, s, st), id, e)
  {
    StepGrows(cfg, s, st);
    EntryCarries(s, Apply(cfg, s, st), id, e);
  }

  lemma NewEntry(cfg: Config, s: State, st: Step)
    requires Sane(s) && Enabled(s, st) && st.InsertEntry? && st.entry in Apply(cfg, s, st).dead
    ensures EntryOk(Apply(cfg, s, st), st.entry, Apply(cfg, s, st).dead[st.entry])
  {
    assert JobOk(s, s.todo[0].id);
  }

  lemma StepRequests(cfg: Config, s: State, st: Step, q: nat)
    requires Enabled(s, st) && q in Apply(cfg, s, st).requests
    ensures var r := Apply(cfg, s, st).requests[q];
      if st.Lookup? && st.q == q then r.entryId in s.dead && r.entry == s.dead[r.entryId] else q in s.requests && r == s.requests[q]
  {
    if st.Lookup? {
    } else {
      FewerRequests(cfg, s, st, q);
    }
  }

  lemma FewerRequests(cfg: Config, s: State, st: Step, q: nat)
    requires Enabled(s, st) && !st.Lookup? && q in Apply(cfg, s, st).requests
    ensures q in s.requests && Apply(cfg, s, st).requests[q] == s.requests[q]
  {
  }

  lemma StepRequest(cfg: Config, s: State, st: Step, q: nat)
    requires Sane(s) && Enabled(s, st) && q in Apply(cfg, s, st).requests
    ensures var r := Apply(cfg, s, st).requests[q]; EntryOk(Apply(cfg, s, st), r.entryId, r.entry)
  {
    StepRequests(cfg, s, st, q);
    var r := Apply(cfg, s, st).requests[q];
    EntryStays(cfg, s, st, r.entryId, r.entry);
  }

  lemma StepWorker(cfg: Config, s: State, st: Step)
    requires Sane(s) && Enabled(s, st)
    ensures WorkerOk(Apply(cfg, s, st))
  {
    if st.Judge? {
      assert JobOk(s, s.todo[0].id);
      var a := s.ledger[s.todo[0].id].answers;
      assert st.outcome.Ok? ==> (a + [true])[|a|];
    } else if st.Record? || st.InsertEntry? || st.DeleteJob? {
      NextWorker(cfg, s, st);
    } else if st.Fetch? {
      assert forall i | 0 <= i < |st.batch| :: st.batch[i] in DueTimes(s.jobs, s.clock);
    } else {
      OtherWorker(cfg, s, st);
    }
  }

  lemma OtherWorker(cfg: Config, s: State, st: Step)
    requires Sane(s) && Enabled(s, st)
    requires !st.Judge? && !st.Record? && !st.InsertEntry? && !st.DeleteJob? && !st.Fetch?
    ensures WorkerOk(Apply(cfg, s, st))
  {
    if !st.Crash? {
      StepGrows(cfg, s, st);
      assert forall id | id in s.jobs :: JobOk(s, id);
      SameWorker(cfg, s, st);
      WorkerCarries(s, Apply(cfg, s, st));
    }
  }

  lemma SameWorker(cfg: Config, s: State, st: Step)
    requires Enabled(s, st) && WorkerOk(s) && forall id | id in s.jobs :: id in s.ledger
    requires st.Enqueue? || st.Lookup? || st.InsertJob? || st.DeleteEntry? || st.Advance?
    ensures Apply(cfg, s, st).todo == s.todo && Apply(cfg, s, st).verdict == s.verdict
    ensures forall i | 0 <= i < |s.todo| ::
      s.todo[i].id in Apply(cfg, s, st).jobs && Apply(cfg, s, st).jobs[s.todo[i].id] == s.jobs[s.todo[i].id]
  {
  }

  lemma WorkerCarries(s: State, s': State)
    requires WorkerOk(s) && Grows(s, s') && s'.todo == s.todo && s'.verdict == s.verdict
    requires forall i | 0 <= i < |s.todo| :: s.todo[i].id in s'.jobs && s'.jobs[s.todo[i].id] == s.jobs[s.todo[i].id]
    ensures WorkerOk(s')
  {
    if Judged(s) && s.verdict.value.Ok? {
      assert s.ledger[s.todo[0].id].answers <= s'.ledger[s.todo[0].id].answers;
    }
  }

  lemma NextWorker(cfg: Config, s: State, st: Step)
    requires Sane(s) && Enabled(s, st) && (st.Record? || st.InsertEntry? || st.DeleteJob?)
    ensures WorkerOk(Apply(cfg, s, st))
  {
    if st.InsertEntry? && !st.fault {
      EntryWorker(cfg, s, st);
    } else {
      NextTodo(cfg, s, st);
      TailOk(s, Apply(cfg, s, st));
    }
  }

  lemma EntryWorker(cfg: Config, s: State, st: Step)
    requires Sane(s) && Enabled(s, st) && st.InsertEntry? && !st.fault
    ensures WorkerOk(Apply(cfg, s, st))
  {
  }

  /** The worker has gone on to its next job, and no other job has changed. */
  ghost predicate WentOn(s: State, s': State) {
    && s.todo != [] && s'.todo == s.todo[1..] && s'.verdict == None
    && forall id | id in s.jobs && id != s.todo[0].id :: id in s'.jobs && s'.jobs[id] == s.jobs[id]
  }

  lemma NextTodo(cfg: Config, s: State, st: Step)
    requires Enabled(s, st) && (st.Record? || st.DeleteJob? || (st.InsertEntry? && st.fault))
    ensures WentOn(s, Apply(cfg, s, st))
  {
  }

  lemma TailOk(s: State, s': State)
    requires WorkerOk(s) && WentOn(s, s')
    ensures WorkerOk(s')
  {
    assert forall i | 0 <= i < |s.todo| - 1 :: s.todo[1..][i] == s.todo[i + 1];
  }

  lemma StepLock(cfg: Config, s: State, st: Step)
    requires Sane(s) && Enabled(s, st)
    ensures LockOk(Apply(cfg, s, st))
  {
    if st.InsertEntry? || st.InsertJob? {
      MoveLock(cfg, s, st);
    } else {
      OtherLock(cfg, s, st);
    }
  }

  lemma MoveLock(cfg: Config, s: State, st: Step)
    requires Sane(s) && Enabled(s, st) && (st.InsertEntry? || st.InsertJob?)
    ensures LockOk(Apply(cfg, s, st))
  {
  }

  lemma OtherLock(cfg: Config, s: State, st: Step)
    requires Sane(s) && Enabled(s, st) && !st.InsertEntry? && !st.InsertJob?
    ensures LockOk(Apply(cfg, s, st))
  {
  }

  lemma StepSane(cfg: Config, s: State, st: Step)
    requires Sane(s) && Enabled(s, st)
    ensures Sane(Apply(cfg, s, st))
  {
    var s' := Apply(cfg, s, st);
    StepGrows(cfg, s, st);
    forall id | id in s'.jobs ensures JobOk(s', id) { StepJob(cfg, s, st, id); }
    forall id | id in s'.dead ensures EntryOk(s', id, s'.dead[id]) { StepEntry(cfg, s, st, id); }
    forall q | q in s'.requests ensures EntryOk(s', s'.requests[q].entryId, s'.requests[q].entry) { StepRequest(cfg, s, st, q); }
    StepAccepted(cfg, s, st);
    StepWorker(cfg, s, st);
    StepLock(cfg, s, st);
  }

  lemma StepAccepted(cfg: Config, s: State, st: Step)
    requires Sane(s) && Enabled(s, st)
    ensures var s' := Apply(cfg, s, st); forall id | id in s'.accepted :: id in s'.ledger && s'.ledger[id].origin == id
  {
    StepGrows(cfg, s, st);
  }

  lemma {:induction false} RunSane(cfg: Config, b: seq<State>, steps: seq<Step>, i: nat)
    requires IsService(cfg, b, steps) && i < |b|
    ensures Sane(b[i])
  {
    if i > 0 {
      RunSane(cfg, b, steps, i - 1);
      StepSane(cfg, b[i - 1], steps[i - 1]);
    }
  }
}
