/** d: when a retry is due, and that no job is fetched before. */
module DDue {
  import opened Common
  import opened Selection
  import opened DProtocol
  import opened DWorker
  import Backoff

  // -------------------------------------------------------------- the delay written

  /** The base doubled once for each attempt before the n-th, at most ten times
      and up to the maximum. */
  function CapAt(cfg: Config, n: nat): nat {
    Backoff.CappedDoubling(cfg.baseMs, cfg.maxMs, Min(Max(n, 1) - 1, 10))
  }

  /** `w` is the cap times the jitter, without its fraction, or five seconds if
      that is beyond 63 bits. */
  ghost predicate Stretched(cap: nat, jitter: real, w: nat) {
    var product := cap as real * jitter;
    if product < 0x8000_0000_0000_0000 as real then
      w as real <= product < w as real + 1.0 && 8 * cap - 10 < 10 * w <= 12 * cap
    else
      w == 5000
  }

  /** The wait after the n-th attempt. */
  ghost predicate Waits(cfg: Config, n: nat, jitter: real, w: nat) {
    Stretched(CapAt(cfg, n), jitter, w)
  }

  lemma StretchedWait(cap: nat, jitter: real)
    requires 0.8 <= jitter <= 1.2
    ensures Wait(Backoff.Scaled(cap, jitter)) >= 0 && Stretched(cap, jitter, Wait(Backoff.Scaled(cap, jitter)))
  {
    Backoff.ScaledIs(cap, jitter);
    Backoff.Band(cap, jitter);
    Backoff.Floors(cap as real * jitter);
  }

  lemma WaitIs(cfg: Config, n: nat, jitter: real) returns (w: nat)
    requires 0.8 <= jitter <= 1.2 && n >= 1
    ensures w == Wait(Backoff.DDelay(n, cfg.baseMs, cfg.maxMs, jitter)) && Waits(cfg, n, jitter, w)
  {
    Backoff.DDoubles(n, cfg.baseMs, cfg.maxMs);
    StretchedWait(CapAt(cfg, n), jitter);
    w := Wait(Backoff.DDelay(n, cfg.baseMs, cfg.maxMs, jitter));
  }

  /** A failed send with attempts left: the job counts it and waits from the time
      of the record on. */
  lemma RetryRow(cfg: Config, t: Tables, h: Held, env: Env) returns (w: nat)
    requires env.verdict.Failed? && h.job.attempts + 1 < h.job.maxAttempts && !env.fault && h.id in t.jobs && 0.8 <= env.jitter <= 1.2
    ensures Waits(cfg, h.job.attempts + 1, env.jitter, w)
    ensures Processed(cfg, t, h, env) == t.(jobs := t.jobs[h.id := t.jobs[h.id].(
      attempts := h.job.attempts + 1, nextAttemptAt := env.at + 1_000_000 * w)])
  {
    w := WaitIs(cfg, h.job.attempts + 1, env.jitter);
  }

  /** Every other end of a send, on the columns. */
  lemma EndRow(cfg: Config, t: Tables, h: Held, env: Env)
    requires !(env.verdict.Failed? && h.job.attempts + 1 < h.job.maxAttempts) && h.id in t.jobs && env.entry !in t.dead
    ensures var t', job := Processed(cfg, t, h, env), h.job;
      if env.fault then t' == t
      else if env.verdict.Ok? then t' == t.(jobs := t.jobs[h.id := t.jobs[h.id].(status := Delivered)])
      else
        && t'.jobs == (if env.deleteFault then t.jobs else t.jobs - {h.id})
        && t'.dead == t.dead[env.entry :=
             if env.verdict.Failed? then Entry(h.id, job.destination, job.payload, job.attempts + 1, env.verdict.err, env.at)
             else Entry(h.id, job.destination, job.payload, job.attempts, "blocked: " + env.verdict.err, env.at)]
  {
  }

  // ------------------------------------------------------- whether it is waited for

  ghost predicate Retries(s: State, st: Step, id: Id) {
    && st.Record? && !st.fault && s.todo != [] && s.todo[0].id == id && s.verdict.Some? && s.verdict.value.Failed?
  }

  /** The steps that write the due time of a job. */
  ghost predicate SetsDue(s: State, st: Step, id: Id) {
    (st.Enqueue? && st.id == id) || (st.InsertJob? && st.id == id && !st.fault) || Retries(s, st, id)
  }

  /** No other step does, while there is the job. */
  lemma DueStays(cfg: Config, s: State, st: Step, id: Id)
    requires Enabled(s, st) && id in Apply(cfg, s, st).jobs && !SetsDue(s, st, id)
    ensures id in s.jobs && Apply(cfg, s, st).jobs[id].nextAttemptAt == s.jobs[id].nextAttemptAt
  {
    if st.Record? { RecordStays(cfg, s, st, id); }
  }

  lemma RecordStays(cfg: Config, s: State, st: Step, id: Id)
    requires Enabled(s, st) && st.Record? && id in Apply(cfg, s, st).jobs && !SetsDue(s, st, id)
    ensures id in s.jobs && Apply(cfg, s, st).jobs[id].nextAttemptAt == s.jobs[id].nextAttemptAt
  {
  }

  ghost predicate NotSet(b: seq<State>, steps: seq<Step>, i: nat, j: nat, id: Id)
    requires j <= |steps| <= |b|
  {
    forall k | i <= k < j :: !SetsDue(b[k], steps[k], id)
  }

  lemma {:induction false} DueKept(cfg: Config, b: seq<State>, steps: seq<Step>, i: nat, j: nat, id: Id)
    requires IsRun(cfg, b, steps) && i <= j < |b| && id in b[j].jobs && NotSet(b, steps, i, j, id)
    ensures id in b[i].jobs && b[j].jobs[id].nextAttemptAt == b[i].jobs[id].nextAttemptAt
    decreases j
  {
    if i < j {
      DueStays(cfg, b[j - 1], steps[j - 1], id);
      DueKept(cfg, b, steps, i, j - 1, id);
    }
  }

  lemma FetchIsDue(cfg: Config, s: State, st: Step, id: Id)
    requires Enabled(s, st) && st.Fetch? && id in st.batch
    ensures id in s.jobs && s.jobs[id].status == Pending && s.jobs[id].nextAttemptAt <= s.clock
  {
    assert id in DueTimes(s.jobs, s.clock);
  }

  /** What a step that writes a due time writes. */
  lemma DueIsWritten(cfg: Config, s: State, st: Step, id: Id) returns (w: nat)
    requires Sane(s) && Enabled(s, st) && SetsDue(s, st, id)
    ensures id in Apply(cfg, s, st).jobs && Apply(cfg, s, st).jobs[id].nextAttemptAt == s.clock + 1_000_000 * w
    ensures if Retries(s, st, id) then Waits(cfg, s.todo[0].job.attempts + 1, st.jitter, w) else w == 0
  {
    w := 0;
    if Retries(s, st, id) { w := WaitIs(cfg, s.todo[0].job.attempts + 1, st.jitter); }
  }

  /** Over every run: after a job was stored or failed and was rescheduled, the
      next fetch that takes it comes no earlier than the wait written then. */
  lemma NoEarlyFetch(cfg: Config, b: seq<State>, steps: seq<Step>, i: nat, j: nat, id: Id) returns (w: nat)
    requires IsService(cfg, b, steps) && i < j < |steps|
    requires SetsDue(b[i], steps[i], id) && steps[j].Fetch? && id in steps[j].batch && NotSet(b, steps, i + 1, j, id)
    ensures b[j].clock >= b[i].clock + 1_000_000 * w
    ensures if Retries(b[i], steps[i], id) then Waits(cfg, b[i].todo[0].job.attempts + 1, steps[i].jitter, w) else w == 0
  {
    RunSane(cfg, b, steps, i);
    w := DueIsWritten(cfg, b[i], steps[i], id);
    FetchIsDue(cfg, b[j], steps[j], id);
    DueKept(cfg, b, steps, i + 1, j, id);
  }
}
