/** Every script of responses is played to its end by some run of each service:
    one submission, delivery 1, no crash, no lost write. */

/** q */
module QScript {
  import opened QProtocol
  import QOvershoot
  import Agreement

  /** `n` sends, the last one a 2xx or the last one allowed. */
  lemma Play(cfg: Config, script: seq<bool>, max: nat) returns (b: seq<State>, steps: seq<Step>)
    requires cfg.limit >= 1 && 1 <= max <= |script|
    ensures |b| > 0 && Agreement.QDone(cfg, b, steps, |b| - 1, 1, script) && b[|b| - 1].rows[1].maxAttempts == max
  {
    var ok, a := Agreement.Accepts(script, max), Agreement.SendsFor(script, max) - 1;
    var idle := QOvershoot.Idle(1);
    var listed := idle[0 := QOvershoot.Holder(a, max)];
    QOvershoot.Accepted(cfg, 1, max);
    QOvershoot.OneRetries(cfg, a, max, 1);
    QOvershoot.Chain(cfg, Init(1), QOvershoot.After(0, max, idle), QOvershoot.After(a, max, idle));
    QOvershoot.Lists(cfg, a, max, idle, 0);
    QOvershoot.Chain(cfg, Init(1), QOvershoot.After(a, max, idle), QOvershoot.After(a, max, listed));
    var last := QOvershoot.Ends(cfg, a, max, listed, 0, ok);
    QOvershoot.Chain(cfg, Init(1), QOvershoot.After(a, max, listed), last);
    b, steps :| QOvershoot.RunBetween(cfg, b, steps, Init(1), last);
    Agreement.Prefix(script, max);
    assert Agreement.Heard(last.ledger[1].answers) == script[..a + 1];
  }
}

/** k */
module KScript {
  import opened Common
  import opened Selection
  import opened Answers
  import opened KProtocol
  import Agreement

  predicate Waits(job: Job, a: nat, max: nat, now: int) {
    job.status == Pending && job.attempts == a && job.maxAttempts == max && job.dueAt <= now
  }

  /** After `a` failed sends. */
  function After(job: Job, a: nat, now: int): State {
    State(map[1 := job], [IDLE], now, map[1 := FailedTimes(a)])
  }

  function Answer(ok: bool): Result {
    if ok then Ok else Failed("HTTP")
  }

  /** Claim and send. */
  lemma Sends(cfg: Config, job: Job, a: nat, max: nat, now: int, ok: bool, b0: seq<State>, steps0: seq<Step>)
    returns (b: seq<State>, steps: seq<Step>)
    requires cfg.limit >= 1 && Waits(job, a, max, now) && IsRun(cfg, b0, steps0) && b0[|b0| - 1] == After(job, a, now)
    ensures IsRun(cfg, b, steps) && b[0] == b0[0]
    ensures b[|b| - 1] == State(map[1 := job.Claimed(now)], [Worker([Held(1, job.Claimed(now))], Some(Answer(ok)))], now, map[1 := FailedTimes(a) + [ok]])
  {
    OnlyOne(DueTimes(map[1 := job], now), cfg.limit, 1);
    b, steps := Append(cfg, b0, steps0, Claim(0, [1], false));
    assert AfterClaim(map[1 := job], [1], now) == map[1 := job.Claimed(now)];
    assert Copies(map[1 := job.Claimed(now)], [1]) == [Held(1, job.Claimed(now))];
    assert b[|b| - 1] == State(map[1 := job.Claimed(now)], [Worker([Held(1, job.Claimed(now))], None)], now, map[1 := FailedTimes(a)]);
    b, steps := Append(cfg, b, steps, Deliver(0, 1, Answer(ok)));
  }

  lemma Round(cfg: Config, job: Job, a: nat, max: nat, now: int, ok: bool, b0: seq<State>, steps0: seq<Step>)
    returns (b: seq<State>, steps: seq<Step>, job': Job)
    requires cfg.limit >= 1 && Waits(job, a, max, now) && IsRun(cfg, b0, steps0) && b0[|b0| - 1] == After(job, a, now)
    ensures IsRun(cfg, b, steps) && b[0] == b0[0]
    ensures b[|b| - 1] == After(job', a, now).(answers := map[1 := FailedTimes(a) + [ok]])
    ensures job'.maxAttempts == max && job'.attempts == a + 1
    ensures job'.status == if ok then Delivered else if a + 1 >= max then Dead else Pending
  {
    b, steps := Sends(cfg, job, a, max, now, ok, b0, steps0);
    var jobs := RecordedJobs(cfg, map[1 := job.Claimed(now)], Held(1, job.Claimed(now)), Answer(ok), 0.0, now);
    job' := jobs[1];
    assert jobs == map[1 := job'];
    assert b[|b| - 1].workers[0].batch[1..] == [];
    b, steps := Append(cfg, b, steps, Record(0, 1, 0.0, false));
    assert b[|b| - 1].workers == [IDLE];
  }

  lemma {:induction false} Fails(cfg: Config, a: nat, max: nat) returns (b: seq<State>, steps: seq<Step>, job: Job, now: int)
    requires cfg.limit >= 1 && a < max
    ensures IsService(cfg, 1, b, steps) && b[|b| - 1] == After(job, a, now) && Waits(job, a, max, now)
    decreases a
  {
    if a == 0 {
      b, steps := Append(cfg, [Init(1)], [], Insert(1, "to", "body", max));
      job, now := FreshJob("to", "body", max, 0), 0;
      assert b[|b| - 1].workers == [IDLE] && FailedTimes(0) == [];
    } else {
      b, steps, job, now := Fails(cfg, a - 1, max);
      b, steps, job := Round(cfg, job, a - 1, max, now, false, b, steps);
      assert FailedTimes(a - 1) + [false] == FailedTimes(a);
      now := Max(now, job.dueAt);
      b, steps := Append(cfg, b, steps, Advance(now));
    }
  }

  lemma Play(cfg: Config, script: seq<bool>, max: nat) returns (b: seq<State>, steps: seq<Step>)
    requires cfg.limit >= 1 && 1 <= max <= |script|
    ensures |b| > 0 && Agreement.KDone(cfg, 1, b, steps, |b| - 1, 1, script) && b[|b| - 1].jobs[1].maxAttempts == max
  {
    var ok, a := Agreement.Accepts(script, max), Agreement.SendsFor(script, max) - 1;
    var job, now;
    b, steps, job, now := Fails(cfg, a, max);
    b, steps, job := Round(cfg, job, a, max, now, ok, b, steps);
    Agreement.Prefix(script, max);
    assert FailedTimes(a) + [ok] == script[..a + 1];
  }
}

/** d */
module DScript {
  import opened Common
  import opened Selection
  import opened Answers
  import opened DProtocol
  import DProgress
  import Agreement

  predicate Waits(job: Job, a: nat, max: nat, now: int) {
    job.status == Pending && job.attempts == a && job.maxAttempts == max && job.nextAttemptAt <= now
  }

  function History(answers: seq<bool>, max: nat): map<Id, Ledger> {
    map[1 := Ledger(1, max, answers, 0, false)]
  }

  /** After `a` failed sends. */
  function After(job: Job, a: nat, max: nat, now: int): State {
    State(map[1 := job], map[], Free, [], None, map[], now, History(FailedTimes(a), max), map[1 := Submission("to", "body")])
  }

  function Answer(ok: bool): Verdict {
    if ok then Ok else Failed("HTTP")
  }

  lemma Sends(cfg: Config, job: Job, a: nat, max: nat, now: int, ok: bool, b0: seq<State>, steps0: seq<Step>)
    returns (b: seq<State>, steps: seq<Step>)
    requires Waits(job, a, max, now) && IsRun(cfg, b0, steps0) && b0[|b0| - 1] == After(job, a, max, now)
    ensures IsRun(cfg, b, steps) && b[0] == b0[0]
    ensures b[|b| - 1] == After(job, a, max, now).(todo := [Held(1, job)], verdict := Some(Answer(ok)), ledger := History(FailedTimes(a) + [ok], max))
  {
    OnlyOne(DueTimes(map[1 := job], now), FETCH_LIMIT, 1);
    b, steps := Append(cfg, b0, steps0, Fetch([1]));
    assert Batch(map[1 := job], [1]) == [Held(1, job)];
    assert b[|b| - 1] == After(job, a, max, now).(todo := [Held(1, job)]);
    b, steps := Append(cfg, b, steps, Judge(Answer(ok)));
  }

  /** A 2xx, or a failure with attempts left. */
  lemma Stored(cfg: Config, job: Job, a: nat, max: nat, now: int, ok: bool, b0: seq<State>, steps0: seq<Step>)
    returns (b: seq<State>, steps: seq<Step>, job': Job)
    requires Waits(job, a, max, now) && IsRun(cfg, b0, steps0) && b0[|b0| - 1] == After(job, a, max, now) && (ok || a + 1 < max)
    ensures IsRun(cfg, b, steps) && b[0] == b0[0]
    ensures b[|b| - 1] == After(job', a, max, now).(ledger := History(FailedTimes(a) + [ok], max))
    ensures job'.maxAttempts == max && if ok then job'.status == Delivered else job'.status == Pending && job'.attempts == a + 1
  {
    b, steps := Sends(cfg, job, a, max, now, ok, b0, steps0);
    var jobs := RecordedJobs(cfg, map[1 := job], Held(1, job), Answer(ok), 1.0, now);
    job' := jobs[1];
    assert jobs == map[1 := job'];
    assert b[|b| - 1].todo[1..] == [];
    b, steps := Append(cfg, b, steps, Record(1.0, false));
  }

  /** The last failure: entry 2 takes the job's place. */
  lemma Dies(cfg: Config, job: Job, a: nat, max: nat, now: int, b0: seq<State>, steps0: seq<Step>) returns (b: seq<State>, steps: seq<Step>)
    requires Waits(job, a, max, now) && IsRun(cfg, b0, steps0) && b0[|b0| - 1] == After(job, a, max, now) && a + 1 >= max
    ensures IsRun(cfg, b, steps) && b[0] == b0[0]
    ensures var s := b[|b| - 1]; DProgress.EntryFrom(s, 2, 1) && 1 in s.ledger && s.ledger[1] == Ledger(1, max, FailedTimes(a) + [false], 0, false)
  {
    b, steps := Sends(cfg, job, a, max, now, false, b0, steps0);
    b, steps := Append(cfg, b, steps, InsertEntry(2, false));
    b, steps := Append(cfg, b, steps, DeleteJob(false));
  }

  lemma {:induction false} Fails(cfg: Config, a: nat, max: nat) returns (b: seq<State>, steps: seq<Step>, job: Job, now: int)
    requires a < max
    ensures IsService(cfg, b, steps) && b[|b| - 1] == After(job, a, max, now) && Waits(job, a, max, now)
    decreases a
  {
    if a == 0 {
      b, steps := Append(cfg, [Init()], [], Enqueue(1, "to", "body", max));
      job, now := FreshJob("to", "body", max, 0), 0;
      assert FailedTimes(0) == [];
    } else {
      b, steps, job, now := Fails(cfg, a - 1, max);
      b, steps, job := Stored(cfg, job, a - 1, max, now, false, b, steps);
      assert FailedTimes(a - 1) + [false] == FailedTimes(a);
      now := Max(now, job.nextAttemptAt);
      b, steps := Append(cfg, b, steps, Advance(now));
    }
  }

  lemma Play(cfg: Config, script: seq<bool>, max: nat) returns (b: seq<State>, steps: seq<Step>)
    requires 1 <= max <= |script|
    ensures |b| > 0 && Agreement.DDone(cfg, b, steps, |b| - 1, 1, script) && b[|b| - 1].ledger[1].maxAttempts == max
  {
    var ok, a := Agreement.Accepts(script, max), Agreement.SendsFor(script, max) - 1;
    var job, now;
    b, steps, job, now := Fails(cfg, a, max);
    Agreement.Prefix(script, max);
    assert FailedTimes(a) + [ok] == script[..a + 1];
    if ok {
      b, steps, job := Stored(cfg, job, a, max, now, true, b, steps);
    } else {
      b, steps := Dies(cfg, job, a, max, now, b, steps);
    }
  }
}

/** g */
module GScript {
  import opened Common
  import opened Selection
  import opened Answers
  import opened GProtocol
  import opened GLeases
  import Agreement
  import Backoff

  predicate Waits(r: Row, a: nat, max: nat, now: int) {
    r.status == Pending && r.attempts == a && r.maxAttempts == max && r.nextAttemptAt <= now
  }

  /** Row `r`, after `a` failed sends, pending and due. */
  function After(r: Row, a: nat, first: nat, now: int): State {
    State(map[1 := r], true, None, map[], first, map[], now, map[1 := Ledger(FailedTimes(a), 0, false)])
  }

  function Answer(ok: bool): Result {
    if ok then Ok else Failed("HTTP")
  }

  lemma Go(cfg: Config, b: seq<State>, steps: seq<Step>, st: Step) returns (b': seq<State>, steps': seq<Step>)
    requires IsRun(cfg, b, steps) && AllTimely(cfg, b) && Enabled(cfg, b[|b| - 1], st) && Timely(cfg, Apply(cfg, b[|b| - 1], st))
    ensures IsRun(cfg, b', steps') && AllTimely(cfg, b') && b'[0] == b[0] && b'[|b'| - 1] == Apply(cfg, b[|b| - 1], st)
  {
    b', steps' := Append(cfg, b, steps, st);
  }

  /** A tick: nothing to reclaim, the row is leased to task `first`. */
  lemma Ticks(cfg: Config, r: Row, a: nat, max: nat, first: nat, now: int, b0: seq<State>, steps0: seq<Step>) returns (b: seq<State>, steps: seq<Step>)
    requires cfg.limit >= 1 && cfg.visibilityMs >= 0 && Waits(r, a, max, now)
    requires IsRun(cfg, b0, steps0) && AllTimely(cfg, b0) && b0[|b0| - 1] == After(r, a, first, now)
    ensures IsRun(cfg, b, steps) && AllTimely(cfg, b) && b[0] == b0[0]
    ensures b[|b| - 1] == After(r.Leased(now), a, first + 1, now).(tasks := map[first := Task(1, a, max, now, None, None)])
  {
    assert AfterReclaim(map[1 := r], now, cfg.visibilityMs) == map[1 := r];
    b, steps := Go(cfg, b0, steps0, Reclaim);
    var s := After(r, a, first, now).(ticker := Some(now));
    assert b[|b| - 1] == s;
    Claims(cfg, s, r, a, max, now);
    b, steps := Go(cfg, b, steps, Claim([1], false));
  }

  lemma Claims(cfg: Config, s: State, r: Row, a: nat, max: nat, now: int)
    requires cfg.limit >= 1 && cfg.visibilityMs >= 0 && Waits(r, a, max, now)
    requires s.rows == map[1 := r] && s.up && s.ticker == Some(now) && s.tasks == map[] && s.requeues == map[] && s.clock == now
    ensures Enabled(cfg, s, Claim([1], false)) && Timely(cfg, Apply(cfg, s, Claim([1], false)))
    ensures Apply(cfg, s, Claim([1], false)) == s.(rows := map[1 := r.Leased(now)], ticker := None, nextTask := s.nextTask + 1,
                                                   tasks := map[s.nextTask := Task(1, a, max, now, None, None)])
  {
    OnlyOne(DueTimes(map[1 := r], now), cfg.limit, 1);
    GLeases.NewTask(s, now);
    assert AfterClaim(s.rows, [1], now) == map[1 := r.Leased(now)];
  }

  /** The task starts and sends. */
  lemma Sends(cfg: Config, r: Row, a: nat, max: nat, first: nat, now: int, ok: bool, b0: seq<State>, steps0: seq<Step>)
    returns (b: seq<State>, steps: seq<Step>)
    requires cfg.limit >= 1 && cfg.visibilityMs >= 0 && Waits(r, a, max, now)
    requires IsRun(cfg, b0, steps0) && AllTimely(cfg, b0) && b0[|b0| - 1] == After(r, a, first, now)
    ensures IsRun(cfg, b, steps) && AllTimely(cfg, b) && b[0] == b0[0]
    ensures b[|b| - 1] == After(r.Leased(now), a, first + 1, now)
      .(tasks := map[first := Task(1, a, max, now, Some(now), Some(Answer(ok)))], ledger := map[1 := Ledger(FailedTimes(a) + [ok], 0, ok)])
  {
    b, steps := Ticks(cfg, r, a, max, first, now, b0, steps0);
    b, steps := Go(cfg, b, steps, Begin(first));
    b, steps := Go(cfg, b, steps, Respond(first, Answer(ok)));
  }

  /** ... and stores the outcome. */
  lemma Round(cfg: Config, r: Row, a: nat, max: nat, first: nat, now: int, ok: bool, b0: seq<State>, steps0: seq<Step>)
    returns (b: seq<State>, steps: seq<Step>, r': Row)
    requires cfg.limit >= 1 && cfg.visibilityMs >= 0 && Waits(r, a, max, now)
    requires IsRun(cfg, b0, steps0) && AllTimely(cfg, b0) && b0[|b0| - 1] == After(r, a, first, now)
    ensures IsRun(cfg, b, steps) && AllTimely(cfg, b) && b[0] == b0[0]
    ensures b[|b| - 1] == After(r', a, first + 1, now).(ledger := map[1 := Ledger(FailedTimes(a) + [ok], 0, ok)])
    ensures r'.maxAttempts == max && r'.attempts == a + 1
    ensures r'.status == if ok then Delivered else if a + 1 >= max then DeadLettered else Pending
  {
    var draw := Backoff.GCap(a + 1, cfg.baseMs, cfg.maxMs) as real;
    Backoff.GMonotone(a + 1, a + 1, cfg.baseMs, cfg.maxMs);
    b, steps := Sends(cfg, r, a, max, first, now, ok, b0, steps0);
    var s := b[|b| - 1];
    var rows := AfterTask(s.rows, s.tasks[first], Answer(ok), Backoff.GDelay(draw), now);
    r' := rows[1];
    assert rows == map[1 := r'] && s.tasks - {first} == map[];
    b, steps := Go(cfg, b, steps, Finalize(first, draw, false));
  }

  lemma {:induction false} Fails(cfg: Config, a: nat, max: nat) returns (b: seq<State>, steps: seq<Step>, r: Row, now: int)
    requires cfg.limit >= 1 && cfg.visibilityMs >= 0 && a < max
    ensures IsService(cfg, b, steps) && AllTimely(cfg, b) && b[|b| - 1] == After(r, a, a, now) && Waits(r, a, max, now)
    decreases a
  {
    if a == 0 {
      b, steps := Go(cfg, [Init()], [], Restart);
      b, steps := Go(cfg, b, steps, Create(1, "to", "body", max));
      r, now := FreshRow("to", "body", max, 0), 0;
      assert FailedTimes(0) == [];
    } else {
      b, steps, r, now := Fails(cfg, a - 1, max);
      b, steps, r := Round(cfg, r, a - 1, max, a - 1, now, false, b, steps);
      assert FailedTimes(a - 1) + [false] == FailedTimes(a);
      now := Max(now, r.nextAttemptAt);
      b, steps := Go(cfg, b, steps, Advance(now));
    }
  }

  lemma Play(cfg: Config, script: seq<bool>, max: nat) returns (b: seq<State>, steps: seq<Step>)
    requires cfg.limit >= 1 && cfg.visibilityMs >= 0 && 1 <= max <= |script|
    ensures |b| > 0 && Agreement.GDone(cfg, b, steps, |b| - 1, 1, script) && b[|b| - 1].rows[1].maxAttempts == max
  {
    var ok, a := Agreement.Accepts(script, max), Agreement.SendsFor(script, max) - 1;
    var r, now;
    b, steps, r, now := Fails(cfg, a, max);
    b, steps, r := Round(cfg, r, a, max, a, now, ok, b, steps);
    Agreement.Prefix(script, max);
    assert FailedTimes(a) + [ok] == script[..a + 1];
  }
}

/** All four together. */
module Scripts {
  import Q = QProtocol
  import K = KProtocol
  import G = GProtocol
  import D = DProtocol
  import QStore
  import QScript
  import KScript
  import GScript
  import DScript
  import DProgress
  import opened Agreement

  /** For every script of 2xx and retryable failures and every limit, each
      service has a run that plays it to the end; all four send equally often
      and decide alike, and differ in their `attempts` columns as stated. */
  lemma EveryScript(qc: Q.Config, kc: K.Config, gc: G.Config, dc: D.Config, script: seq<bool>, max: nat)
    returns (qb: seq<Q.State>, qs: seq<Q.Step>, kb: seq<K.State>, ks: seq<K.Step>, gb: seq<G.State>, gs: seq<G.Step>, db: seq<D.State>, ds: seq<D.Step>)
    requires qc.limit >= 1 && kc.limit >= 1 && gc.limit >= 1 && gc.visibilityMs >= 0 && 1 <= max <= |script|
    ensures |qb| > 0 && QDone(qc, qb, qs, |qb| - 1, 1, script) && |kb| > 0 && KDone(kc, 1, kb, ks, |kb| - 1, 1, script)
    ensures |gb| > 0 && GDone(gc, gb, gs, |gb| - 1, 1, script) && |db| > 0 && DDone(dc, db, ds, |db| - 1, 1, script)
    ensures var q, k, g, d, n, ok := qb[|qb| - 1], kb[|kb| - 1], gb[|gb| - 1], db[|db| - 1], SendsFor(script, max), Accepts(script, max);
      && |q.ledger[1].answers| == |k.answers[1]| == |g.ledger[1].answers| == |d.ledger[1].answers| == n
      && (q.rows[1].status == QStore.Status.Delivered <==> ok) && (k.jobs[1].status == K.Delivered <==> ok)
      && (g.rows[1].status == G.Delivered <==> ok) && (DDelivered(d, 1) <==> ok)
      && q.rows[1].attempts == (if ok then n else n - 1) && k.jobs[1].attempts == n && g.rows[1].attempts == n
      && (if ok then d.jobs[1].attempts == n - 1 else forall e | DProgress.EntryFrom(d, e, 1) :: d.dead[e].attempts == n)
  {
    qb, qs := QScript.Play(qc, script, max);
    kb, ks := KScript.Play(kc, script, max);
    gb, gs := GScript.Play(gc, script, max);
    db, ds := DScript.Play(dc, script, max);
    FourAgree(qc, qb, qs, kc, 1, kb, ks, gc, gb, gs, dc, db, ds, |qb| - 1, |kb| - 1, |gb| - 1, |db| - 1, 1, script, max);
  }
}
