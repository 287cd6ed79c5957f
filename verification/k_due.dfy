/** k: when a retry is due, and that no job is claimed before. */
module KDue {
  import opened Common
  import opened Selection
  import opened KProtocol
  import KDb
  import Timestamp
  import Backoff

  // -------------------------------------------------------------- the delay written

  /** Doublings before the attempt, in 32 bits and at most 20. */
  function Doublings(attempts: int): nat {
    Min((Max(attempts, 1) - 1) % 0x1_0000_0000, 20)
  }

  function CapAt(cfg: Config, attempts: int): nat {
    Backoff.CappedDoubling(cfg.baseMs, cfg.maxMs, Doublings(attempts))
  }

  /** `w` is the cap with its jitter, without its fraction; beyond 63 bits it is
      the maximum as a signed number. */
  ghost predicate Stretched(cap: nat, max: int, jitter: real, w: int) {
    var product := cap as real * (1.0 + jitter);
    if product < 0x8000_0000_0000_0000 as real then
      w as real <= product < w as real + 1.0 && 8 * cap - 10 < 10 * w <= 12 * cap
    else
      w == if max < 0x8000_0000_0000_0000 then max else max - 0x1_0000_0000_0000_0000
  }

  /** The wait after the failed attempt. */
  ghost predicate Waits(cfg: Config, attempts: int, jitter: real, w: int) {
    Stretched(CapAt(cfg, attempts), cfg.maxMs, jitter, w)
  }

  lemma ShiftIs(attempts: int)
    ensures Backoff.KShift(attempts) == Doublings(attempts)
  {
    var a, q, r := Max(attempts, 1), Max(attempts, 1) / 0x1_0000_0000, Max(attempts, 1) % 0x1_0000_0000;
    assert a == 0x1_0000_0000 * q + r;
    if r == 0 {
      assert a - 1 == 0x1_0000_0000 * (q - 1) + 0xffff_ffff;
    } else {
      assert a - 1 == 0x1_0000_0000 * q + (r - 1);
    }
  }

  lemma StretchedWait(cap: nat, max: Backoff.u64, jitter: real)
    requires -0.2 <= jitter <= 0.2
    ensures var delay := Backoff.Scaled(cap, 1.0 + jitter);
      Stretched(cap, max, jitter, if delay < Backoff.TWO_63 then delay else Backoff.AsI64(max))
  {
    Backoff.ScaledIs(cap, 1.0 + jitter);
    Backoff.Band(cap, 1.0 + jitter);
    Backoff.Floors(cap as real * (1.0 + jitter));
  }

  lemma WaitIs(cfg: Config, attempts: int, jitter: real)
    requires -0.2 <= jitter <= 0.2
    ensures Waits(cfg, attempts, jitter, Backoff.KWait(attempts, cfg.baseMs, cfg.maxMs, jitter))
  {
    ShiftIs(attempts);
    Backoff.KDoubles(attempts, cfg.baseMs, cfg.maxMs);
    StretchedWait(CapAt(cfg, attempts), cfg.maxMs, jitter);
  }

  /** The worker will try again. */
  ghost predicate WillRetry(h: Held, env: KDb.Env) {
    env.result.Failed? && !env.fault && h.job.attempts < h.job.maxAttempts
  }

  /** A failed attempt that was not the last: the job waits from the clock
      reading on. */
  lemma RetryRow(cfg: Config, jobs: Jobs, h: Held, env: KDb.Env) returns (w: int)
    requires WillRetry(h, env) && h.id in jobs && -0.2 <= env.jitter <= 0.2
    ensures Waits(cfg, h.job.attempts, env.jitter, w)
    ensures KDb.Handled(cfg, jobs, h, env) == jobs[h.id := jobs[h.id].(
      status := Pending, dueAt := Timestamp.Millis(env.now) + w, lastError := Some(env.result.err), updatedAt := Timestamp.Millis(env.now))]
  {
    WaitIs(cfg, h.job.attempts, env.jitter);
    w := Backoff.KWait(h.job.attempts, cfg.baseMs, cfg.maxMs, env.jitter);
  }

  lemma RowAtRetry(r: KDb.Row, h: Held, env: KDb.Env, now: string, due: string)
    requires WillRetry(h, env)
    ensures KDb.RowAt(r, h, env, now, due) == r.(status := Pending, nextAttemptAt := due, lastError := Some(env.result.err), updatedAt := now)
  {
  }

  /** ... and its stored row says so in text. */
  lemma RetryText(cfg: Config, r: KDb.Row, h: Held, env: KDb.Env) returns (w: int, due: Timestamp.Instant)
    requires WillRetry(h, env) && KDb.Stampable(cfg, h, env) && -0.2 <= env.jitter <= 0.2
    ensures Waits(cfg, h.job.attempts, env.jitter, w) && due == env.now + 1_000_000 * w
    ensures KDb.HandledRow(cfg, r, h, env) == r.(
      status := Pending, nextAttemptAt := Timestamp.FmtTs(due), lastError := Some(env.result.err), updatedAt := Timestamp.FmtTs(env.now))
  {
    WaitIs(cfg, h.job.attempts, env.jitter);
    w, due := Backoff.KWait(h.job.attempts, cfg.baseMs, cfg.maxMs, env.jitter), KDb.Due(cfg, h, env);
    RowAtRetry(r, h, env, Timestamp.FmtTs(env.now), Timestamp.FmtTs(due));
  }

  /** Every other end of an attempt, on the columns. */
  lemma EndRow(cfg: Config, jobs: Jobs, h: Held, env: KDb.Env)
    requires !WillRetry(h, env) && h.id in jobs
    ensures KDb.Handled(cfg, jobs, h, env) ==
      if env.fault then jobs
      else if env.result.Ok? then jobs[h.id := jobs[h.id].(status := Delivered, lastError := None, updatedAt := Timestamp.Millis(env.now))]
      else jobs[h.id := jobs[h.id].(status := Dead, lastError := Some(env.result.err), updatedAt := Timestamp.Millis(env.now))]
  {
  }

  // ------------------------------------------------------- whether it is waited for

  ghost predicate Claims(st: Step, id: Id) {
    st.Claim? && !st.fault && id in st.batch
  }

  ghost predicate Retries(s: State, st: Step, id: Id) {
    && st.Record? && !st.fault && Heading(s, st.w, id) && s.workers[st.w].answer.Some? && s.workers[st.w].answer.value.Failed?
    && s.workers[st.w].batch[0].job.attempts < s.workers[st.w].batch[0].job.maxAttempts && id in s.jobs
  }

  ghost predicate Requeues(s: State, st: Step, id: Id) {
    st.Requeue? && st.id == id && id in s.jobs && s.jobs[id].status == Dead
  }

  /** The steps that write the due time of a job. */
  ghost predicate SetsDue(s: State, st: Step, id: Id) {
    (st.Insert? && st.id == id) || Retries(s, st, id) || Requeues(s, st, id)
  }

  /** No other step does. */
  lemma DueStays(cfg: Config, s: State, st: Step, id: Id)
    requires Enabled(cfg, s, st) && id in s.jobs && !SetsDue(s, st, id)
    ensures id in Apply(cfg, s, st).jobs && Apply(cfg, s, st).jobs[id].dueAt == s.jobs[id].dueAt
  {
  }

  ghost predicate NotSet(b: seq<State>, steps: seq<Step>, i: nat, j: nat, id: Id)
    requires j <= |steps| <= |b|
  {
    forall k | i <= k < j :: !SetsDue(b[k], steps[k], id)
  }

  ghost predicate SameDue(b: seq<State>, k: nat, id: Id)
    requires k + 1 < |b|
  {
    id in b[k].jobs ==> id in b[k + 1].jobs && b[k + 1].jobs[id].dueAt == b[k].jobs[id].dueAt
  }

  lemma {:induction false} StaysTheSame(b: seq<State>, i: nat, j: nat, id: Id)
    requires i <= j < |b| && id in b[i].jobs && forall k | i <= k < j :: SameDue(b, k, id)
    ensures id in b[j].jobs && b[j].jobs[id].dueAt == b[i].jobs[id].dueAt
    decreases j
  {
    if i < j {
      StaysTheSame(b, i, j - 1, id);
      assert SameDue(b, j - 1, id);
    }
  }

  lemma DueKept(cfg: Config, b: seq<State>, steps: seq<Step>, i: nat, j: nat, id: Id)
    requires IsRun(cfg, b, steps) && i <= j < |b| && id in b[i].jobs && NotSet(b, steps, i, j, id)
    ensures id in b[j].jobs && b[j].jobs[id].dueAt == b[i].jobs[id].dueAt
  {
    forall k | i <= k < j ensures SameDue(b, k, id) {
      if id in b[k].jobs { DueStays(cfg, b[k], steps[k], id); }
    }
    StaysTheSame(b, i, j, id);
  }

  /** A claim takes due jobs only. */
  lemma ClaimIsDue(cfg: Config, s: State, st: Step, id: Id)
    requires Enabled(cfg, s, st) && Claims(st, id)
    ensures id in s.jobs && s.jobs[id].status == Pending && s.jobs[id].dueAt <= s.clock
  {
    assert id in DueTimes(s.jobs, s.clock);
  }

  lemma DueIsWritten(cfg: Config, s: State, st: Step, id: Id) returns (w: int)
    requires Enabled(cfg, s, st) && SetsDue(s, st, id)
    ensures id in Apply(cfg, s, st).jobs && Apply(cfg, s, st).jobs[id].dueAt == s.clock + w
    ensures if Retries(s, st, id) then Waits(cfg, s.workers[st.w].batch[0].job.attempts, st.jitter, w) else w == 0
  {
    w := 0;
    if Retries(s, st, id) {
      var attempts := s.workers[st.w].batch[0].job.attempts;
      WaitIs(cfg, attempts, st.jitter);
      w := Backoff.KWait(attempts, cfg.baseMs, cfg.maxMs, st.jitter);
    }
  }

  /** Over every run: after a job was stored, requeued or failed and rescheduled,
      the next claim of it comes no earlier than the wait written then. */
  lemma NoEarlyClaim(cfg: Config, b: seq<State>, steps: seq<Step>, i: nat, j: nat, id: Id) returns (w: int)
    requires IsRun(cfg, b, steps) && i < j < |steps|
    requires SetsDue(b[i], steps[i], id) && Claims(steps[j], id) && NotSet(b, steps, i + 1, j, id)
    ensures b[j].clock >= b[i].clock + w
    ensures if Retries(b[i], steps[i], id) then Waits(cfg, b[i].workers[steps[i].w].batch[0].job.attempts, steps[i].jitter, w) else w == 0
  {
    w := DueIsWritten(cfg, b[i], steps[i], id);
    DueKept(cfg, b, steps, i + 1, j, id);
    ClaimIsDue(cfg, b[j], steps[j], id);
  }
}
