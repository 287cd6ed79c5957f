/** k: what a job's answers decide, and that no due job is starved. */
module KProgress {
  import opened Common
  import opened Selection
  import opened Answers
  import opened KProtocol
  import Backoff

  // ------------------------------------------------------------- a job's life

  /** The answers since insert or requeue match the row and its holder. */
  ghost predicate OnCourse(s: State, id: Id)
    requires id in s.jobs && id in s.answers
  {
    var job, a := s.jobs[id], s.answers[id];
    && (job.status == Pending ==> |a| == job.attempts && AllFailed(a))
    && (job.status == InFlight ==> job.attempts - 1 <= |a| <= job.attempts)
    && (job.status == Delivered ==> |a| == job.attempts && FailedButLast(a, true))
    && (job.status == Dead ==> |a| == job.attempts == job.maxAttempts && AllFailed(a))
    && (forall w, i | HeldAt(s, w, i, id) ::
          if i == 0 && s.workers[w].answer.Some? then |a| == job.attempts && FailedButLast(a, s.workers[w].answer.value.Ok?)
          else |a| == job.attempts - 1 && AllFailed(a))
  }

  lemma StepOnCourse(cfg: Config, s: State, st: Step, id: Id)
    requires Enabled(cfg, s, st) && Owned(s, id) && s.answers.Keys == s.jobs.Keys
    requires id in s.jobs && Counted(s.jobs[id]) && OnCourse(s, id)
    ensures id in Apply(cfg, s, st).jobs && id in Apply(cfg, s, st).answers && OnCourse(Apply(cfg, s, st), id)
  {
    if st.Claim? && !st.fault {
      ClaimOnCourse(cfg, s, st, id);
    } else if st.Record? && st.id == id {
      RecordOnCourse(cfg, s, st, id);
    } else if st.Deliver? && st.id == id {
      DeliverOnCourse(cfg, s, st, id);
    } else if st == Requeue(id) {
      RequeueOnCourse(cfg, s, st, id);
    } else {
      OtherOnCourse(cfg, s, st, id);
    }
  }

  lemma ClaimOnCourse(cfg: Config, s: State, st: Step, id: Id)
    requires Enabled(cfg, s, st) && Owned(s, id) && s.answers.Keys == s.jobs.Keys && st.Claim? && !st.fault
    requires id in s.jobs && OnCourse(s, id)
    ensures OnCourse(Apply(cfg, s, st), id)
  {
    var s' := Apply(cfg, s, st);
    assert id in st.batch ==> id in DueTimes(s.jobs, s.clock);
    forall w, i | HeldAt(s', w, i, id)
      ensures if id in st.batch then w == st.w else HeldAt(s, w, i, id) && w != st.w
    {
      StepHeld(cfg, s, st, w, i, id);
    }
  }

  lemma RecordOnCourse(cfg: Config, s: State, st: Step, id: Id)
    requires Enabled(cfg, s, st) && Owned(s, id) && s.answers.Keys == s.jobs.Keys && st.Record? && st.id == id
    requires id in s.jobs && Counted(s.jobs[id]) && OnCourse(s, id)
    ensures OnCourse(Apply(cfg, s, st), id)
  {
    assert HeldAt(s, st.w, 0, id);
    RecordOwned(cfg, s, st, id);
    var a := s.answers[id];
    assert a == a[..|a| - 1] + [a[|a| - 1]];
  }

  lemma DeliverOnCourse(cfg: Config, s: State, st: Step, id: Id)
    requires Enabled(cfg, s, st) && Owned(s, id) && s.answers.Keys == s.jobs.Keys && st.Deliver? && st.id == id
    requires id in s.jobs && OnCourse(s, id)
    ensures OnCourse(Apply(cfg, s, st), id)
  {
    var s' := Apply(cfg, s, st);
    assert HeldAt(s, st.w, 0, id);
    assert (s.answers[id] + [st.result.Ok?])[..|s.answers[id]|] == s.answers[id];
    forall w, i | HeldAt(s', w, i, id) ensures w == st.w && i == 0 {
      StepHeld(cfg, s, st, w, i, id);
    }
  }

  lemma RequeueOnCourse(cfg: Config, s: State, st: Step, id: Id)
    requires Enabled(cfg, s, st) && Owned(s, id) && s.answers.Keys == s.jobs.Keys && st == Requeue(id)
    requires id in s.jobs && OnCourse(s, id)
    ensures OnCourse(Apply(cfg, s, st), id)
  {
  }

  lemma OtherOnCourse(cfg: Config, s: State, st: Step, id: Id)
    requires Enabled(cfg, s, st) && Owned(s, id) && s.answers.Keys == s.jobs.Keys
    requires !(st.Claim? && !st.fault) && !(st.Record? && st.id == id) && !(st.Deliver? && st.id == id) && st != Requeue(id)
    requires id in s.jobs && OnCourse(s, id)
    ensures id in Apply(cfg, s, st).jobs && id in Apply(cfg, s, st).answers && OnCourse(Apply(cfg, s, st), id)
  {
    var s' := Apply(cfg, s, st);
    assert s'.jobs[id] == s.jobs[id] && s'.answers[id] == s.answers[id];
    if st.Record? || st.Deliver? { assert HeldAt(s, st.w, 0, st.id); }
    forall w, i | HeldAt(s', w, i, id)
      ensures st.Record? && st.w == w ==> i == 0 || HeldAt(s, w, i + 1, id)
      ensures exists j :: HeldAt(s, w, j, id) && ((j == 0 && s.workers[w].answer.Some?) <==> (i == 0 && s'.workers[w].answer.Some?))
    {
      StepHeld(cfg, s, st, w, i, id);
      if st.Record? && st.w == w { assert HeldAt(s, w, i + 1, id); } else { assert HeldAt(s, w, i, id); }
    }
  }

  lemma {:induction false} RunOnCourse(cfg: Config, workers: nat, b: seq<State>, steps: seq<Step>, i: nat, id: Id)
    requires IsService(cfg, workers, b, steps) && i < |b| && id in b[i].jobs
    ensures id in b[i].answers && OnCourse(b[i], id) && Counted(b[i].jobs[id])
  {
    RunOwned(cfg, workers, b, steps, i, id);
    var s, st := b[i - 1], steps[i - 1];
    RunOwned(cfg, workers, b, steps, i - 1, id);
    if id in s.jobs {
      RunOnCourse(cfg, workers, b, steps, i - 1, id);
      StepOnCourse(cfg, s, st, id);
    } else {
      forall w, k | HeldAt(b[i], w, k, id) ensures false {
        StepHeld(cfg, s, st, w, k, id);
      }
    }
  }

  /** In every run, with any number of workers, crashes and lost writes: a job
      is sent at most `max_attempts` times between insert or requeue and its
      end, and a terminal row tells its answers exactly. */
  lemma SendsAreBounded(cfg: Config, workers: nat, b: seq<State>, steps: seq<Step>, i: nat, id: Id)
    requires IsService(cfg, workers, b, steps) && i < |b| && id in b[i].jobs
    ensures id in b[i].answers && |b[i].answers[id]| <= b[i].jobs[id].maxAttempts
    ensures b[i].jobs[id].status == Delivered ==> |b[i].answers[id]| == b[i].jobs[id].attempts && FailedButLast(b[i].answers[id], true)
    ensures b[i].jobs[id].status == Dead ==>
      |b[i].answers[id]| == b[i].jobs[id].attempts == b[i].jobs[id].maxAttempts && AllFailed(b[i].answers[id])
  {
    RunOnCourse(cfg, workers, b, steps, i, id);
  }

  // ---------------------------------------------------------------- no starvation

  /** Pending jobs due no later than this one, itself included. */
  ghost function Ahead(jobs: Jobs, id: Id): set<Id>
    requires id in jobs
  {
    set j | j in jobs && jobs[j].status == Pending && jobs[j].dueAt <= jobs[id].dueAt
  }

  /** The job is waiting and the clock is past its due time. */
  ghost predicate Overdue(s: State, id: Id) {
    id in s.jobs && s.jobs[id].status == Pending && s.jobs[id].dueAt < s.clock
  }

  /** No other write can put a job ahead of an overdue one: while every
      retry is scheduled forward, the due times written are at or after the clock. */
  lemma StepAhead(cfg: Config, s: State, st: Step, id: Id)
    requires Backoff.KForward(cfg.baseMs, cfg.maxMs)
    requires Enabled(cfg, s, st) && Overdue(s, id) && Owned(s, id)
    requires !(st.Claim? && !st.fault)
    ensures Overdue(Apply(cfg, s, st), id)
    ensures Ahead(Apply(cfg, s, st).jobs, id) <= Ahead(s.jobs, id)
  {
    if st.Record? {
      var job := s.workers[st.w].batch[0].job;
      assert Backoff.KWait(job.attempts, cfg.baseMs, cfg.maxMs, st.jitter) >= 0;
      assert st.id == id ==> HeldAt(s, st.w, 0, id);
    }
  }

  /** A claim takes the overdue job, or takes a full batch from ahead of it. */
  lemma ClaimAhead(cfg: Config, s: State, st: Step, id: Id)
    requires Enabled(cfg, s, st) && Overdue(s, id) && st.Claim? && !st.fault
    ensures id in Apply(cfg, s, st).jobs
    ensures if id in st.batch then Apply(cfg, s, st).jobs[id].status == InFlight
      else Overdue(Apply(cfg, s, st), id) && |Ahead(Apply(cfg, s, st).jobs, id)| == |Ahead(s.jobs, id)| - cfg.limit
  {
    var s' := Apply(cfg, s, st);
    var due := DueTimes(s.jobs, s.clock);
    if id !in st.batch {
      LeftOutMeansFull(due, cfg.limit, st.batch, id);
      var taken := set i | 0 <= i < |st.batch| :: st.batch[i];
      BatchSize(st.batch);
      assert taken <= Ahead(s.jobs, id);
      assert Ahead(s'.jobs, id) == Ahead(s.jobs, id) - taken;
    }
  }

  ghost function Claims(steps: seq<Step>, i: nat, j: nat): nat
    requires i <= j <= |steps|
    decreases j - i
  {
    if i == j then 0 else Claims(steps, i, j - 1) + Claimed(steps[j - 1])
  }

  function Claimed(st: Step): nat {
    if st.Claim? && !st.fault then 1 else 0
  }

  ghost predicate Waiting(s: State, id: Id) {
    id in s.jobs && s.jobs[id].status == Pending
  }

  lemma StepRank(cfg: Config, s: State, st: Step, id: Id)
    requires Backoff.KForward(cfg.baseMs, cfg.maxMs)
    requires Enabled(cfg, s, st) && Overdue(s, id) && Owned(s, id)
    ensures Waiting(Apply(cfg, s, st), id) ==>
      Overdue(Apply(cfg, s, st), id) && |Ahead(Apply(cfg, s, st).jobs, id)| + cfg.limit * Claimed(st) <= |Ahead(s.jobs, id)|
    ensures !Waiting(Apply(cfg, s, st), id) ==> id in Apply(cfg, s, st).jobs && Apply(cfg, s, st).jobs[id].status == InFlight
  {
    if Claimed(st) == 1 {
      ClaimAhead(cfg, s, st, id);
    } else {
      StepAhead(cfg, s, st, id);
      SubsetSize(Ahead(Apply(cfg, s, st).jobs, id), Ahead(s.jobs, id));
    }
  }

  /** One step of a run, from the rank's point of view. */
  ghost predicate RankStep(cfg: Config, s: State, s': State, st: Step, id: Id)
    requires id in s.jobs
  {
    if Waiting(s', id) then
      Overdue(s', id) && |Ahead(s'.jobs, id)| + cfg.limit * Claimed(st) <= |Ahead(s.jobs, id)|
    else
      id in s'.jobs && s'.jobs[id].status == InFlight
  }

  lemma RunRank(cfg: Config, workers: nat, b: seq<State>, steps: seq<Step>, i: nat, id: Id)
    requires Backoff.KForward(cfg.baseMs, cfg.maxMs)
    requires IsService(cfg, workers, b, steps) && i < |steps| && Overdue(b[i], id)
    ensures RankStep(cfg, b[i], b[i + 1], steps[i], id)
  {
    RunOwned(cfg, workers, b, steps, i, id);
    StepRank(cfg, b[i], steps[i], id);
  }

  lemma {:induction false} RankFalls(cfg: Config, workers: nat, b: seq<State>, steps: seq<Step>, i: nat, j: nat, id: Id)
    requires Backoff.KForward(cfg.baseMs, cfg.maxMs)
    requires IsService(cfg, workers, b, steps) && i <= j < |b|
    requires Overdue(b[i], id)
    requires forall k | i < k <= j :: Waiting(b[k], id)
    ensures Overdue(b[j], id)
    ensures |Ahead(b[j].jobs, id)| + cfg.limit * Claims(steps, i, j) <= |Ahead(b[i].jobs, id)|
    decreases j - i
  {
    if i < j {
      RankFalls(cfg, workers, b, steps, i, j - 1, id);
      RunRank(cfg, workers, b, steps, j - 1, id);
      assert Waiting(b[j], id);
      RankAdds(cfg, b[j - 1], b[j], steps[j - 1], id, |Ahead(b[i].jobs, id)|, Claims(steps, i, j - 1), Claims(steps, i, j));
    }
  }

  lemma RankAdds(cfg: Config, s: State, s': State, st: Step, id: Id, rank: nat, claims: nat, claims': nat)
    requires id in s.jobs && RankStep(cfg, s, s', st, id) && Waiting(s', id) && claims' == claims + Claimed(st)
    requires |Ahead(s.jobs, id)| + cfg.limit * claims <= rank
    ensures Overdue(s', id) && |Ahead(s'.jobs, id)| + cfg.limit * claims' <= rank
  {
    Sum(cfg.limit, claims, Claimed(st));
  }

  lemma Sum(k: nat, x: nat, y: nat)
    ensures k * (x + y) == k * x + k * y
  {
  }

  /** Whatever is submitted, requeued or rescheduled meanwhile, an overdue job
      with `r` pending jobs due no later than itself is in flight within
      `ceil(r / limit)` claims, by any workers, if no retry is scheduled backwards
      (`Backoff.KForwardIff` says when). */
  lemma NoStarvation(cfg: Config, workers: nat, b: seq<State>, steps: seq<Step>, i: nat, j: nat, id: Id) returns (k: nat)
    requires Backoff.KForward(cfg.baseMs, cfg.maxMs)
    requires IsService(cfg, workers, b, steps) && i <= j < |b|
    requires Overdue(b[i], id)
    requires cfg.limit * Claims(steps, i, j) >= |Ahead(b[i].jobs, id)|
    ensures i < k <= j && id in b[k].jobs && b[k].jobs[id].status == InFlight
    ensures forall l | i < l < k :: Waiting(b[l], id)
  {
    SomeChange(cfg, workers, b, steps, i, j, id);
    k := FirstChange(b, i, j, id);
    RankFalls(cfg, workers, b, steps, i, k - 1, id);
    RunRank(cfg, workers, b, steps, k - 1, id);
  }

  lemma SomeChange(cfg: Config, workers: nat, b: seq<State>, steps: seq<Step>, i: nat, j: nat, id: Id)
    requires Backoff.KForward(cfg.baseMs, cfg.maxMs)
    requires IsService(cfg, workers, b, steps) && i <= j < |b|
    requires Overdue(b[i], id)
    requires cfg.limit * Claims(steps, i, j) >= |Ahead(b[i].jobs, id)|
    ensures exists k :: i < k <= j && !Waiting(b[k], id)
  {
    if forall k | i < k <= j :: Waiting(b[k], id) {
      RankFalls(cfg, workers, b, steps, i, j, id);
      CountsItself(b[j], id);
    }
  }

  lemma CountsItself(s: State, id: Id)
    requires Waiting(s, id)
    ensures |Ahead(s.jobs, id)| >= 1
  {
    assert id in Ahead(s.jobs, id);
  }

  lemma {:induction false} FirstChange(b: seq<State>, i: nat, j: nat, id: Id) returns (k: nat)
    requires i <= j < |b|
    requires exists k :: i < k <= j && !Waiting(b[k], id)
    ensures i < k <= j && !Waiting(b[k], id)
    ensures forall l | i < l < k :: Waiting(b[l], id)
    decreases j - i
  {
    if !Waiting(b[i + 1], id) {
      k := i + 1;
    } else {
      k := FirstChange(b, i + 1, j, id);
    }
  }

  // ---------------------------------------------------------------- a lost job

  /** The redelivery after a crash that the README promises does not happen:
      submit, claim, crash, and the job is in flight with no holder. */
  lemma CrashLosesAJob(cfg: Config) returns (b: seq<State>, steps: seq<Step>)
    requires cfg.limit >= 1
    ensures IsService(cfg, 1, b, steps)
    ensures var s := b[|b| - 1]; 1 in s.jobs && s.jobs[1].status == InFlight && !IsHeld(s, 1) && s.answers == map[1 := []]
  {
    var s0 := Init(1);
    var insert, claim := Insert(1, "to", "body", 1), Claim(0, [1], false);
    var s1 := Apply(cfg, s0, insert);
    assert DueTimes(s1.jobs, s1.clock) == map[1 := 0];
    var s2 := Apply(cfg, s1, claim);
    var s3 := Apply(cfg, s2, Crash);
    b, steps := [s0, s1, s2, s3], [insert, claim, Crash];
  }
}
