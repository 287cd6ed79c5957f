/** q: when a retry is due, and whether the workers wait for it. */
module QDue {
  import opened Common
  import opened Selection
  import opened QStore
  import opened QClassify
  import opened QProtocol
  import opened QWorker
  import opened Backoff
  import QLedgers
  import QOvershoot

  // -------------------------------------------------------------- the delay written

  /** The cast of an unsigned 64-bit number to a signed one. */
  function Signed(w: nat): int {
    if w < 0x8000_0000_0000_0000 then w else w - 0x1_0000_0000_0000_0000
  }

  /** A retryable failure with attempts left: the row waits, from the time of the
      record on, between nothing and the base doubled once for each attempt
      before this one, at most 20 times and up to the maximum. */
  lemma RetryRow(cfg: Config, t: Tables, d: Listed, env: Env) returns (w: nat)
    requires WillRetry(t, d, env)
    ensures w <= CappedDoubling(cfg.baseMs, cfg.maxMs, Min(d.row.attempts, 20))
    ensures var r := t.rows[d.id];
      Processed(cfg, t, d, env) == Tables(t.rows[d.id := r.(
        status := Pending, attempts := r.attempts + 1, nextRetryAt := env.recordAt + Signed(w),
        lastError := Some(env.outcome.err), updatedAt := env.recordAt)], t.dlq)
  {
    var attempt := d.row.attempts + 1;
    w := NextDelayMs(attempt, cfg.baseMs, cfg.maxMs, env.draw);
    QCapExact(attempt, cfg.baseMs, cfg.maxMs);
    Twice(t.rows, d.id, t.rows[d.id].Claimed(env.claimAt), Processed(cfg, t, d, env).rows[d.id]);
  }

  lemma Twice(rows: Rows, id: Id, r: Delivery, r': Delivery)
    ensures rows[id := r][id := r'] == rows[id := r']
  {
  }

  /** The due time that a draw leads to. */
  ghost function DueWith(cfg: Config, t: Tables, d: Listed, env: Env, draw: u64): int
    requires WillRetry(t, d, env)
  {
    Processed(cfg, t, d, env.(draw := draw)).rows[d.id].nextRetryAt
  }

  ghost function DrawsFor(cfg: Config, t: Tables, d: Listed, env: Env, w: nat): set<int>
    requires WillRetry(t, d, env)
  {
    set draw: int | 0 <= draw < TWO_64 && DueWith(cfg, t, d, env, draw) == env.recordAt + Signed(w)
  }

  /** What is left of the doubled base after 64 bits, up to the maximum. */
  function ShiftedCap(cfg: Config, d: Listed): nat {
    Min((cfg.baseMs * Pow2(Min(d.row.attempts, 20))) % TWO_64, cfg.maxMs)
  }

  lemma DrawsArePreimage(cfg: Config, t: Tables, d: Listed, env: Env, w: nat)
    requires WillRetry(t, d, env) && w < TWO_64
    ensures DrawsFor(cfg, t, d, env, w) == Preimage(ShiftedCap(cfg, d), w)
  {
    forall draw: u64 ensures DueWith(cfg, t, d, env, draw) == env.recordAt + Signed(UniformInclusive(draw, ShiftedCap(cfg, d))) {
      DelayOf(cfg, t, d, env, draw);
    }
  }

  lemma DelayOf(cfg: Config, t: Tables, d: Listed, env: Env, draw: u64)
    requires WillRetry(t, d, env)
    ensures DueWith(cfg, t, d, env, draw) == env.recordAt + Signed(UniformInclusive(draw, ShiftedCap(cfg, d)))
  {
  }

  /** Every delay up to the cap is reached by some draw and none beyond it, and
      the draws that reach two of them differ in number by at most one; the cap
      is the doubled base up to the maximum exactly when no bit is shifted out
      or the bits left reach the maximum. */
  lemma RetrySpread(cfg: Config, t: Tables, d: Listed, env: Env, w1: nat, w2: nat)
    requires WillRetry(t, d, env) && w1 < TWO_64 && w2 < TWO_64
    ensures var shifted := cfg.baseMs * Pow2(Min(d.row.attempts, 20));
      var cap := Min(shifted % TWO_64, cfg.maxMs);
      && (DrawsFor(cfg, t, d, env, w1) != {} <==> w1 <= cap)
      && (w1 <= cap && w2 <= cap ==> -1 <= |DrawsFor(cfg, t, d, env, w1)| - |DrawsFor(cfg, t, d, env, w2)| <= 1)
      && (cap == CappedDoubling(cfg.baseMs, cfg.maxMs, Min(d.row.attempts, 20)) <==> shifted < TWO_64 || shifted % TWO_64 >= cfg.maxMs)
  {
    DrawsArePreimage(cfg, t, d, env, w1);
    DrawsArePreimage(cfg, t, d, env, w2);
    if w1 <= ShiftedCap(cfg, d) { JitterUniform(ShiftedCap(cfg, d), w1, if w2 <= ShiftedCap(cfg, d) then w2 else w1); }
    QCapExact(d.row.attempts + 1, cfg.baseMs, cfg.maxMs);
  }

  // ------------------------------------------------------- whether it is waited for

  /** The step wins the claim of the row. */
  ghost predicate Wins(s: State, st: Step, id: Id) {
    st.Claim? && st.id == id && !st.fault && id in s.rows && s.rows[id].status == Pending
  }

  /** No run ever claims a row before it is due. */
  ghost predicate NeverEarly(cfg: Config, workers: nat) {
    forall b: seq<State>, steps: seq<Step>, i: nat, id: Id | IsService(cfg, workers, b, steps) && i < |steps| && Wins(b[i], steps[i], id) ::
      b[i].rows[id].nextRetryAt <= b[i].clock
  }

  /** Rows were due when they were listed. */
  ghost predicate CopiesDue(s: State) {
    forall w | 0 <= w < |s.workers| :: TodoDue(s.workers[w].todo, s.clock)
  }

  ghost predicate TodoDue(todo: seq<Listed>, clock: int) {
    forall k | 0 <= k < |todo| :: todo[k].row.nextRetryAt <= clock
  }

  lemma StepCopiesDue(cfg: Config, s: State, st: Step)
    requires Enabled(cfg, s, st) && CopiesDue(s)
    ensures CopiesDue(Apply(cfg, s, st))
  {
    var s' := Apply(cfg, s, st);
    forall w | 0 <= w < |s'.workers| ensures TodoDue(s'.workers[w].todo, s'.clock) {
      assert TodoDue(s.workers[w].todo, s.clock);
      if st.List? && st.w == w { ListedDue(s, cfg.limit, st.batch); }
    }
  }

  lemma ListedDue(s: State, limit: nat, batch: seq<Id>)
    requires Oldest(DueTimes(s.rows, s.clock), limit, batch) || batch == []
    ensures (forall i | 0 <= i < |batch| :: batch[i] in s.rows) && TodoDue(Listing(s.rows, batch), s.clock)
  {
    assert forall i | 0 <= i < |batch| :: batch[i] in DueTimes(s.rows, s.clock);
  }

  lemma {:induction false} RunCopiesDue(cfg: Config, workers: nat, b: seq<State>, steps: seq<Step>, i: nat)
    requires IsService(cfg, workers, b, steps) && i < |b|
    ensures CopiesDue(b[i])
  {
    if i > 0 {
      RunCopiesDue(cfg, workers, b, steps, i - 1);
      StepCopiesDue(cfg, b[i - 1], steps[i - 1]);
    }
  }

  /** One worker's copies are the rows, so it claims none before its due time. */
  lemma AloneWaits(cfg: Config, b: seq<State>, steps: seq<Step>, i: nat, id: Id)
    requires IsService(cfg, 1, b, steps) && i < |steps| && Wins(b[i], steps[i], id)
    ensures b[i].rows[id].nextRetryAt <= b[i].clock
  {
    RunCopiesDue(cfg, 1, b, steps, i);
    QLedgers.RunSolo(cfg, b, steps, i, id);
    assert TodoDue(b[i].workers[0].todo, b[i].clock) && b[i].workers[0].todo[0].id == id;
  }

  /** Without a base or a maximum every row is due at once. */
  ghost predicate RowsDue(s: State) {
    forall id | id in s.rows :: s.rows[id].nextRetryAt <= s.clock
  }

  lemma StepRowsDue(cfg: Config, s: State, st: Step)
    requires Enabled(cfg, s, st) && RowsDue(s) && (cfg.baseMs == 0 || cfg.maxMs == 0)
    ensures RowsDue(Apply(cfg, s, st))
  {
    if st.Record? { NoDelay(s.workers[st.w].phase.d.row.attempts + 1, cfg.baseMs, cfg.maxMs, st.draw); }
  }

  lemma NoDelay(attempt: nat, base: u64, max: u64, draw: u64)
    requires base == 0 || max == 0
    ensures NextDelayMs(attempt, base, max, draw) == 0
  {
    QCapExact(attempt, base, max);
    ClosedForm(base, max, Min(SaturatingPred(attempt), 20));
  }

  lemma {:induction false} RunRowsDue(cfg: Config, workers: nat, b: seq<State>, steps: seq<Step>, i: nat)
    requires IsService(cfg, workers, b, steps) && i < |b| && (cfg.baseMs == 0 || cfg.maxMs == 0)
    ensures RowsDue(b[i])
  {
    if i > 0 {
      RunRowsDue(cfg, workers, b, steps, i - 1);
      StepRowsDue(cfg, b[i - 1], steps[i - 1]);
    }
  }

  /** A limit of none lists nothing. */
  ghost predicate NothingListed(s: State) {
    forall w | 0 <= w < |s.workers| :: s.workers[w].todo == []
  }

  lemma {:induction false} RunNothingListed(cfg: Config, workers: nat, b: seq<State>, steps: seq<Step>, i: nat)
    requires IsService(cfg, workers, b, steps) && i < |b| && (cfg.limit == 0 || workers == 0)
    ensures NothingListed(b[i]) && |b[i].workers| == workers
  {
    if i > 0 {
      RunNothingListed(cfg, workers, b, steps, i - 1);
      StepNothingListed(cfg, b[i - 1], steps[i - 1]);
    }
  }

  lemma StepNothingListed(cfg: Config, s: State, st: Step)
    requires Enabled(cfg, s, st) && NothingListed(s) && (cfg.limit == 0 || |s.workers| == 0)
    ensures NothingListed(Apply(cfg, s, st)) && |Apply(cfg, s, st).workers| == |s.workers|
  {
  }

  /** Two workers list the row; the first sends, fails and reschedules it, and
      the second claims it with its copy at the same instant. */
  lemma TwoDoNotWait(cfg: Config, workers: nat) returns (b: seq<State>, steps: seq<Step>)
    requires workers >= 2 && cfg.limit >= 1 && cfg.baseMs >= 1 && cfg.maxMs >= 1
    ensures IsService(cfg, workers, b, steps) && steps != [] && Wins(b[|steps| - 1], steps[|steps| - 1], 1)
    ensures b[|steps| - 1].rows[1].nextRetryAt == b[|steps| - 1].clock + 1
  {
    var both := QOvershoot.FirstHold(0, 2, workers, 2);
    QOvershoot.Accepted(cfg, workers, 2);
    QOvershoot.AllList(cfg, 0, 2, workers, 2);
    var sent := QOvershoot.Sends(cfg, 0, 2, both, 0, 0, QOvershoot.FAILS);
    QOvershoot.Chain(cfg, Init(workers), QOvershoot.After(0, 2, QOvershoot.Idle(workers)), QOvershoot.After(0, 2, both));
    QOvershoot.Chain(cfg, Init(workers), QOvershoot.After(0, 2, both), sent);
    b, steps :| QOvershoot.RunBetween(cfg, b, steps, Init(workers), sent);
    OneMillisecond(cfg);
    b, steps := Append(cfg, b, steps, Record(0, 1, 1, false));
    assert both[1] == QOvershoot.Holder(0, 2);
    b, steps := Append(cfg, b, steps, Claim(1, 1, false));
  }

  lemma OneMillisecond(cfg: Config)
    requires cfg.baseMs >= 1 && cfg.maxMs >= 1
    ensures NextDelayMs(1, cfg.baseMs, cfg.maxMs, 1) == 1
  {
    assert Pow2(0) == 1;
    assert QCap(1, cfg.baseMs, cfg.maxMs) == Min(cfg.baseMs, cfg.maxMs);
  }

  /** Due times are kept in every run exactly for one worker at most, or where
      nothing is ever listed or no retry ever waits. */
  lemma NeverEarlyIff(cfg: Config, workers: nat)
    ensures NeverEarly(cfg, workers) <==> workers <= 1 || cfg.limit == 0 || cfg.baseMs == 0 || cfg.maxMs == 0
  {
    if workers <= 1 || cfg.limit == 0 || cfg.baseMs == 0 || cfg.maxMs == 0 {
      forall b: seq<State>, steps: seq<Step>, i: nat, id: Id | IsService(cfg, workers, b, steps) && i < |steps| && Wins(b[i], steps[i], id)
        ensures b[i].rows[id].nextRetryAt <= b[i].clock
      {
        if workers == 1 {
          AloneWaits(cfg, b, steps, i, id);
        } else if workers == 0 || cfg.limit == 0 {
          RunNothingListed(cfg, workers, b, steps, i);
        } else {
          RunRowsDue(cfg, workers, b, steps, i);
        }
      }
    } else {
      var b, steps := TwoDoNotWait(cfg, workers);
      assert Wins(b[|steps| - 1], steps[|steps| - 1], 1);
    }
  }
}
