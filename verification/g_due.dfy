/** g: when a retry is due, and that no task is claimed before. */
module GDue {
  import opened Common
  import opened Selection
  import opened GProtocol
  import Backoff

  // -------------------------------------------------------------- the query

  /** What the query selects and what it leaves out, on the columns. */
  ghost predicate Selected(rows: Rows, now: int, limit: nat, answer: seq<Id>) {
    && |answer| <= limit
    && (forall i | 0 <= i < |answer| :: answer[i] in rows && rows[answer[i]].status == Pending && rows[answer[i]].nextAttemptAt <= now)
    && (forall i, j | 0 <= i < j < |answer| :: answer[i] != answer[j] && rows[answer[i]].nextAttemptAt <= rows[answer[j]].nextAttemptAt)
    && (forall id | id in rows && rows[id].status == Pending && rows[id].nextAttemptAt <= now && id !in answer ::
          |answer| == limit && forall i | 0 <= i < |answer| :: rows[answer[i]].nextAttemptAt <= rows[id].nextAttemptAt)
  }

  lemma AnswerSelects(rows: Rows, now: int, limit: nat, answer: seq<Id>)
    requires Oldest(DueTimes(rows, now), limit, answer)
    ensures Selected(rows, now, limit, answer)
  {
    var due := DueTimes(rows, now);
    assert forall i | 0 <= i < |answer| :: answer[i] in due;
    forall id | id in rows && rows[id].status == Pending && rows[id].nextAttemptAt <= now && id !in answer
      ensures |answer| == limit && forall i | 0 <= i < |answer| :: rows[answer[i]].nextAttemptAt <= rows[id].nextAttemptAt
    {
      LeftOutMeansFull(due, limit, answer, id);
    }
  }

  // -------------------------------------------------------------- the delay written

  /** The doublings before the n-th attempt. */
  function Doublings(n: int): nat {
    Min(Max(n, 1) - 1, 16)
  }

  /** The base doubled once for each attempt before the n-th, up to the maximum. */
  function CapAt(cfg: Config, n: int): nat {
    Backoff.CappedDoubling(Max(cfg.baseMs, 1), Max(cfg.maxMs, 1), Doublings(n))
  }

  /** A failure with attempts left, from a draw that the source can make: the
      row waits from the start of the attempt, for the draw without its fraction,
      between half the cap and the cap. */
  lemma RetryRow(cfg: Config, rows: Rows, t: Task, err: string, draw: real, startedAt: int) returns (w: nat)
    requires t.id in rows && t.attempts + 1 < t.maxAttempts
    requires var cap := Backoff.GCap(t.attempts + 1, cfg.baseMs, cfg.maxMs) as real; cap / 2.0 <= draw <= cap
    ensures w as real <= draw < w as real + 1.0 && CapAt(cfg, t.attempts + 1) / 2 <= w <= CapAt(cfg, t.attempts + 1)
    ensures CapAt(cfg, t.attempts + 1) as real / 2.0 <= draw <= CapAt(cfg, t.attempts + 1) as real
    ensures AfterTask(rows, t, Failed(err), Backoff.GDelay(draw), startedAt) == rows[t.id := rows[t.id].(
      status := Pending, attempts := t.attempts + 1, lastError := Some(err), nextAttemptAt := startedAt + w, updatedAt := startedAt)]
  {
    Backoff.GDoubles(t.attempts + 1, cfg.baseMs, cfg.maxMs);
    Backoff.GBand(t.attempts + 1, cfg.baseMs, cfg.maxMs, draw);
    Backoff.GMonotone(t.attempts + 1, t.attempts + 1, cfg.baseMs, cfg.maxMs);
    w := Backoff.GDelay(draw);
  }

  // ------------------------------------------------------- whether it is waited for

  /** The step claims the row for a new task. */
  ghost predicate Claims(st: Step, id: Id) {
    st.Claim? && !st.fault && id in st.batch
  }

  /** The step stores a failure of the row with attempts left. */
  ghost predicate Retries(s: State, st: Step, id: Id) {
    && st.Finalize? && !st.fault && st.t in s.tasks && s.tasks[st.t].id == id
    && s.tasks[st.t].startedAt.Some? && s.tasks[st.t].result.Some? && s.tasks[st.t].result.value.Failed?
    && s.tasks[st.t].attempts + 1 < s.tasks[st.t].maxAttempts
  }

  ghost predicate Requeues(s: State, st: Step, id: Id) {
    st.RequeueWrite? && !st.fault && st.q in s.requeues && s.requeues[st.q] == id && id in s.rows
  }

  /** The steps that write the due time of a row. */
  ghost predicate SetsDue(s: State, st: Step, id: Id) {
    (st.Create? && st.id == id) || Retries(s, st, id) || Requeues(s, st, id)
  }

  /** No other step does. */
  lemma DueStays(cfg: Config, s: State, st: Step, id: Id)
    requires Enabled(cfg, s, st) && id in s.rows && !SetsDue(s, st, id)
    ensures id in Apply(cfg, s, st).rows && Apply(cfg, s, st).rows[id].nextAttemptAt == s.rows[id].nextAttemptAt
  {
  }

  ghost predicate NotSet(b: seq<State>, steps: seq<Step>, i: nat, j: nat, id: Id)
    requires j <= |steps| <= |b|
  {
    forall k | i <= k < j :: !SetsDue(b[k], steps[k], id)
  }

  lemma {:induction false} DueKept(cfg: Config, b: seq<State>, steps: seq<Step>, i: nat, j: nat, id: Id)
    requires IsRun(cfg, b, steps) && i <= j < |b| && id in b[i].rows && NotSet(b, steps, i, j, id)
    ensures id in b[j].rows && b[j].rows[id].nextAttemptAt == b[i].rows[id].nextAttemptAt
    decreases j
  {
    if i < j {
      DueKept(cfg, b, steps, i, j - 1, id);
      DueStays(cfg, b[j - 1], steps[j - 1], id);
    }
  }

  /** A claim takes due rows only, by the time the tick read. */
  lemma ClaimIsDue(cfg: Config, s: State, st: Step, id: Id)
    requires Sane(s) && Enabled(cfg, s, st) && Claims(st, id)
    ensures id in s.rows && s.rows[id].status == Pending && s.ticker.Some? && s.rows[id].nextAttemptAt <= s.ticker.value <= s.clock
  {
    AnswerSelects(s.rows, s.ticker.value, cfg.limit, st.batch);
  }

  /** The earliest time that a step lets the row be claimed again. */
  ghost function NotBefore(cfg: Config, s: State, st: Step, id: Id): int
    requires SetsDue(s, st, id)
  {
    if Retries(s, st, id) then s.tasks[st.t].startedAt.value + CapAt(cfg, s.tasks[st.t].attempts + 1) / 2 else s.clock
  }

  lemma DueIsWritten(cfg: Config, s: State, st: Step, id: Id)
    requires Sane(s) && Enabled(cfg, s, st) && SetsDue(s, st, id)
    ensures id in Apply(cfg, s, st).rows && Apply(cfg, s, st).rows[id].nextAttemptAt >= NotBefore(cfg, s, st, id)
    ensures !Retries(s, st, id) ==> Apply(cfg, s, st).rows[id].nextAttemptAt == s.clock
  {
    if Retries(s, st, id) {
      var t := s.tasks[st.t];
      assert TaskOk(s, t);
      var w := RetryRow(cfg, s.rows, t, t.result.value.err, st.draw, t.startedAt.value);
    }
  }

  /** Over every run: a step that creates, requeues or reschedules a row writes a
      due time; after a failure it is half the backoff of the attempt or more,
      counted from the start of the attempt. */
  lemma RunDueIsWritten(cfg: Config, b: seq<State>, steps: seq<Step>, i: nat, id: Id)
    requires IsService(cfg, b, steps) && i < |steps| && SetsDue(b[i], steps[i], id)
    ensures id in b[i + 1].rows && b[i + 1].rows[id].nextAttemptAt >= NotBefore(cfg, b[i], steps[i], id)
  {
    RunSane(cfg, b, steps, i);
    DueIsWritten(cfg, b[i], steps[i], id);
  }

  /** ... and until another such step, no task is claimed before that time. */
  lemma NoEarlyClaim(cfg: Config, b: seq<State>, steps: seq<Step>, i: nat, j: nat, id: Id)
    requires IsService(cfg, b, steps) && i <= j < |steps| && id in b[i].rows && Claims(steps[j], id) && NotSet(b, steps, i, j, id)
    ensures b[j].ticker.Some? && b[i].rows[id].nextAttemptAt <= b[j].ticker.value <= b[j].clock
  {
    DueKept(cfg, b, steps, i, j, id);
    RunClaimIsDue(cfg, b, steps, j, id);
  }

  lemma RunClaimIsDue(cfg: Config, b: seq<State>, steps: seq<Step>, j: nat, id: Id)
    requires IsService(cfg, b, steps) && j < |steps| && Claims(steps[j], id)
    ensures id in b[j].rows && b[j].ticker.Some? && b[j].rows[id].nextAttemptAt <= b[j].ticker.value <= b[j].clock
  {
    RunSane(cfg, b, steps, j);
    ClaimIsDue(cfg, b[j], steps[j], id);
  }
}
