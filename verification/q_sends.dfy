/** q: how many sends one delivery can cost, for any number of workers. */
module QSends {
  import opened Common
  import opened QStore
  import opened QProtocol

  /** The worker still has a copy of the row that lets a failed send be retried. */
  ghost predicate Permits(wk: Worker, id: Id, max: nat) {
    || (Holding(wk, id) && wk.phase.d.row.attempts + 1 < max)
    || exists i | 0 <= i < |wk.todo| :: wk.todo[i].id == id && wk.todo[i].row.attempts + 1 < max
  }

  ghost function Permitted(workers: seq<Worker>, id: Id, max: nat): set<int> {
    set w: int | 0 <= w < |workers| && Permits(workers[w], id, max)
  }

  function Budget(max: nat): nat { Max(1, max) }

  /** At most one worker holds the row, and only while it is in flight; its
      sends are exactly the attempts recorded, plus the one under way. */
  ghost predicate Exclusive(s: State, id: Id)
    requires id in s.rows && id in s.ledger
  {
    var r, sent := s.rows[id], |s.ledger[id].answers|;
    && (forall v, w | 0 <= v < |s.workers| && 0 <= w < |s.workers| && Holding(s.workers[v], id) && Holding(s.workers[w], id) :: v == w)
    && (forall w | 0 <= w < |s.workers| && Holding(s.workers[w], id) ::
          && r.status == InFlight
          && sent == r.attempts + if s.workers[w].phase.Answered? then 1 else 0)
    && (r.status == Pending ==> sent == r.attempts)
    && (r.status == InFlight ==> sent <= r.attempts + 1)
  }

  /** Past the budget, every further attempt uses up one stale copy. */
  ghost predicate WithinBudget(s: State, id: Id)
    requires id in s.rows && id in s.ledger
  {
    var r, max := s.rows[id], Budget(s.rows[id].maxAttempts);
    && (!r.Terminal() && r.attempts >= max - 1 ==>
          r.attempts + |Permitted(s.workers, id, r.maxAttempts)| <= max + |s.workers| - 2)
    && |s.ledger[id].answers| <= max + |s.workers| - 1
  }

  /** The run never resets this row as stale, and validation never turns it away. */
  ghost predicate Undisturbed(steps: seq<Step>, id: Id) {
    forall i | 0 <= i < |steps| :: Calm(steps[i], id)
  }

  predicate Calm(st: Step, id: Id) {
    && (st.Startup? ==> id !in st.reset)
    && (st.Reject? ==> st.id != id)
  }

  // ------------------------------------------------------------ counting permits

  lemma PermitsShrink(before: seq<Worker>, after: seq<Worker>, id: Id, max: nat)
    requires |before| == |after|
    requires forall w | 0 <= w < |after| && Permits(after[w], id, max) :: Permits(before[w], id, max)
    ensures |Permitted(after, id, max)| <= |Permitted(before, id, max)|
  {
    SubsetSize(Permitted(after, id, max), Permitted(before, id, max));
  }

  lemma PermitUsed(before: seq<Worker>, after: seq<Worker>, id: Id, max: nat, w: nat)
    requires |before| == |after| && w < |after|
    requires forall v | 0 <= v < |after| && Permits(after[v], id, max) :: Permits(before[v], id, max)
    requires Permits(before[w], id, max) && !Permits(after[w], id, max)
    ensures |Permitted(after, id, max)| <= |Permitted(before, id, max)| - 1
    ensures |Permitted(after, id, max)| <= |after| - 1
  {
    SubsetSize(Permitted(after, id, max), Permitted(before, id, max) - {w});
    RangeSize(Permitted(before, id, max), 0, |before|);
  }

  lemma NoPermits(workers: seq<Worker>, id: Id, max: nat)
    requires max <= 1 || forall w | 0 <= w < |workers| :: !Permits(workers[w], id, max)
    ensures Permitted(workers, id, max) == {}
  {
  }

  // ---------------------------------------------------------------- one step

  /** A worker only comes to hold a row by winning the claim. */
  lemma StepHolder(cfg: Config, s: State, st: Step, id: Id, w: nat)
    requires Enabled(cfg, s, st) && w < |s.workers|
    requires Holding(Apply(cfg, s, st).workers[w], id)
    ensures Holding(s.workers[w], id) || (st == Claim(w, id, false) && Claimable(s.rows, id))
    ensures Apply(cfg, s, st).workers[w].phase.Answered? <==> s.workers[w].phase.Answered? || (st.Send? && st.w == w)
    ensures st.Send? && st.w == w ==> st.id == id && s.workers[w].phase.Sending?
  {
  }

  /** What a calm step does to a row nobody gains. */
  lemma StepRow(cfg: Config, s: State, st: Step, id: Id)
    requires Sane(s) && Enabled(cfg, s, st) && Calm(st, id) && id in s.rows
    requires !(st.Record? && st.id == id) && !(st.Claim? && st.id == id) && st != Replay(id)
    ensures Apply(cfg, s, st).rows[id] == s.rows[id]
    ensures Apply(cfg, s, st).ledger[id].answers
      == s.ledger[id].answers + if st.Send? && st.id == id then [st.outcome] else []
  {
  }

  lemma StepExclusive(cfg: Config, s: State, st: Step, id: Id)
    requires Sane(s) && Enabled(cfg, s, st) && Calm(st, id)
    requires id in s.rows && Exclusive(s, id)
    ensures Sane(Apply(cfg, s, st)) && Exclusive(Apply(cfg, s, st), id)
  {
    StepSane(cfg, s, st);
    if st.Record? && st.id == id {
      RecordExclusive(cfg, s, st, id);
    } else if (st.Claim? && st.id == id) || st == Replay(id) {
      ClaimOrReplayExclusive(cfg, s, st, id);
    } else {
      OtherExclusive(cfg, s, st, id);
    }
  }

  lemma RecordExclusive(cfg: Config, s: State, st: Step, id: Id)
    requires Sane(s) && Enabled(cfg, s, st) && Sane(Apply(cfg, s, st))
    requires id in s.rows && Exclusive(s, id) && st.Record? && st.id == id
    ensures Exclusive(Apply(cfg, s, st), id)
  {
    var s' := Apply(cfg, s, st);
    assert Holding(s.workers[st.w], id);
    forall w | 0 <= w < |s'.workers| ensures !Holding(s'.workers[w], id) {
      if w != st.w { assert s'.workers[w] == s.workers[w]; }
    }
    assert s'.ledger[id].answers == s.ledger[id].answers;
  }

  lemma ClaimOrReplayExclusive(cfg: Config, s: State, st: Step, id: Id)
    requires Sane(s) && Enabled(cfg, s, st) && Sane(Apply(cfg, s, st))
    requires id in s.rows && Exclusive(s, id) && ((st.Claim? && st.id == id) || st == Replay(id))
    ensures Exclusive(Apply(cfg, s, st), id)
  {
    var s' := Apply(cfg, s, st);
    forall w | 0 <= w < |s'.workers| && Holding(s'.workers[w], id)
      ensures Holding(s.workers[w], id) || (st == Claim(w, id, false) && Claimable(s.rows, id) && s'.workers[w].phase.Sending?)
    {
      StepHolder(cfg, s, st, id, w);
    }
  }

  lemma OtherExclusive(cfg: Config, s: State, st: Step, id: Id)
    requires Sane(s) && Enabled(cfg, s, st) && Sane(Apply(cfg, s, st)) && Calm(st, id)
    requires id in s.rows && Exclusive(s, id)
    requires !(st.Record? && st.id == id) && !(st.Claim? && st.id == id) && st != Replay(id)
    ensures Exclusive(Apply(cfg, s, st), id)
  {
    StepRow(cfg, s, st, id);
    StepKeeps(cfg, s, st);
    forall w | 0 <= w < |s.workers| && Holding(Apply(cfg, s, st).workers[w], id)
      ensures Holding(s.workers[w], id)
      ensures Apply(cfg, s, st).workers[w].phase.Answered? <==> s.workers[w].phase.Answered? || (st.Send? && st.id == id)
    {
      StepHolder(cfg, s, st, id, w);
      if st.Send? && st.id == id { SenderHolds(cfg, s, st); }
    }
    if st.Send? && st.id == id { SenderHolds(cfg, s, st); }
    SameExclusive(s, Apply(cfg, s, st), id, if st.Send? && st.id == id then 1 else 0);
  }

  lemma SenderHolds(cfg: Config, s: State, st: Step)
    requires Enabled(cfg, s, st) && st.Send?
    ensures st.w < |s.workers| && Holding(s.workers[st.w], st.id) && s.workers[st.w].phase.Sending?
  {
  }

  lemma SameExclusive(s: State, s': State, id: Id, more: nat)
    requires id in s.rows && id in s.ledger && Exclusive(s, id) && |s'.workers| == |s.workers| && more <= 1
    requires id in s'.rows && id in s'.ledger && s'.rows[id] == s.rows[id]
    requires |s'.ledger[id].answers| == |s.ledger[id].answers| + more
    requires more == 1 ==> exists w :: 0 <= w < |s.workers| && Holding(s.workers[w], id) && s.workers[w].phase.Sending?
    requires forall w | 0 <= w < |s'.workers| && Holding(s'.workers[w], id) ::
      Holding(s.workers[w], id) && (s'.workers[w].phase.Answered? <==> s.workers[w].phase.Answered? || more == 1)
    ensures Exclusive(s', id)
  {
  }

  lemma NewExclusive(cfg: Config, s: State, st: Step, id: Id)
    requires Sane(s) && Enabled(cfg, s, st) && |s.workers| >= 1
    requires id !in s.rows && id in Apply(cfg, s, st).rows
    ensures Sane(Apply(cfg, s, st)) && Exclusive(Apply(cfg, s, st), id) && WithinBudget(Apply(cfg, s, st), id)
  {
    StepSane(cfg, s, st);
    assert st.Submit? && st.d.id == id;
    forall w | 0 <= w < |s.workers| ensures !Holding(s.workers[w], id) && !Permits(s.workers[w], id, st.d.maxAttempts) {
      assert WorkerOk(s.rows, s.workers[w]);
      assert forall i | 0 <= i < |s.workers[w].todo| :: SnapshotOk(s.rows, s.workers[w].todo[i]);
    }
    NoPermits(s.workers, id, st.d.maxAttempts);
  }

  /** Only listing the row hands out a permit, and a row listed at its last
      attempt hands out none. */
  lemma StepPermits(cfg: Config, s: State, st: Step, id: Id, w: nat)
    requires Sane(s) && Enabled(cfg, s, st) && id in s.rows && w < |s.workers|
    requires Permits(Apply(cfg, s, st).workers[w], id, s.rows[id].maxAttempts)
    ensures Permits(s.workers[w], id, s.rows[id].maxAttempts)
      || (s.rows[id].status == Pending && s.rows[id].attempts + 1 < s.rows[id].maxAttempts)
  {
    if Apply(cfg, s, st).workers[w] != s.workers[w] {
      if st.List? {
        ListPermits(cfg, s, st, id);
      } else if st.Claim? || st.Reject? {
        NextPermits(cfg, s, st, id, s.rows[id].maxAttempts);
      } else {
        KeptPermits(cfg, s, st, id, w, s.rows[id].maxAttempts);
      }
    }
  }

  lemma NextPermits(cfg: Config, s: State, st: Step, id: Id, max: nat)
    requires Enabled(cfg, s, st) && (st.Claim? || st.Reject?)
    requires Permits(Apply(cfg, s, st).workers[st.w], id, max)
    ensures Permits(s.workers[st.w], id, max)
  {
    var wk, wk' := s.workers[st.w], Apply(cfg, s, st).workers[st.w];
    assert forall i | 0 <= i < |wk'.todo| :: wk'.todo[i] == wk.todo[i + 1];
  }

  lemma KeptPermits(cfg: Config, s: State, st: Step, id: Id, w: nat, max: nat)
    requires Enabled(cfg, s, st) && w < |s.workers| && !st.List? && !st.Claim? && !st.Reject?
    requires Permits(Apply(cfg, s, st).workers[w], id, max)
    ensures Permits(s.workers[w], id, max)
  {
  }

  lemma ListPermits(cfg: Config, s: State, st: Step, id: Id)
    requires Enabled(cfg, s, st) && st.List? && id in s.rows
    requires Permits(Apply(cfg, s, st).workers[st.w], id, s.rows[id].maxAttempts)
    ensures s.rows[id].status == Pending && s.rows[id].attempts + 1 < s.rows[id].maxAttempts
  {
    var todo := Apply(cfg, s, st).workers[st.w].todo;
    var i :| 0 <= i < |todo| && todo[i].id == id && todo[i].row.attempts + 1 < s.rows[id].maxAttempts;
    assert todo[i] == Listed(st.batch[i], s.rows[st.batch[i]]) && st.batch[i] in DueTimes(s.rows, s.clock);
  }

  lemma StepWithinBudget(cfg: Config, s: State, st: Step, id: Id)
    requires Sane(s) && Enabled(cfg, s, st) && Calm(st, id) && |s.workers| >= 1
    requires id in s.rows && Exclusive(s, id) && WithinBudget(s, id)
    ensures Sane(Apply(cfg, s, st)) && WithinBudget(Apply(cfg, s, st), id)
  {
    StepSane(cfg, s, st);
    StepKeeps(cfg, s, st);
    if st.Record? && st.id == id && !st.fault {
      RecordWithinBudget(cfg, s, st, id);
    } else if st == Replay(id) {
      ReplayWithinBudget(cfg, s, st, id);
    } else {
      OtherWithinBudget(cfg, s, st, id);
    }
  }

  lemma ReplayWithinBudget(cfg: Config, s: State, st: Step, id: Id)
    requires Sane(s) && Enabled(cfg, s, st) && |s.workers| >= 1 && st == Replay(id) && Sane(Apply(cfg, s, st))
    requires id in s.rows && WithinBudget(s, id)
    ensures WithinBudget(Apply(cfg, s, st), id)
  {
    if s.rows[id].maxAttempts <= 1 { NoPermits(s.workers, id, s.rows[id].maxAttempts); }
  }

  /** No new attempt, and permits only to rows with attempts to spare. */
  lemma OtherWithinBudget(cfg: Config, s: State, st: Step, id: Id)
    requires Sane(s) && Enabled(cfg, s, st) && Calm(st, id) && |s.workers| >= 1 && Sane(Apply(cfg, s, st))
    requires !(st.Record? && st.id == id && !st.fault) && st != Replay(id)
    requires id in s.rows && Exclusive(s, id) && WithinBudget(s, id)
    requires id in Apply(cfg, s, st).rows && Apply(cfg, s, st).rows[id].maxAttempts == s.rows[id].maxAttempts
    ensures WithinBudget(Apply(cfg, s, st), id)
  {
    var s', r, max := Apply(cfg, s, st), s.rows[id], s.rows[id].maxAttempts;
    SameAttempts(cfg, s, st, id);
    if !r.Terminal() && r.attempts >= Budget(max) - 1 {
      forall w | 0 <= w < |s'.workers| && Permits(s'.workers[w], id, max) ensures Permits(s.workers[w], id, max) {
        StepPermits(cfg, s, st, id, w);
      }
      PermitsShrink(s.workers, s'.workers, id, max);
    }
  }

  lemma SameAttempts(cfg: Config, s: State, st: Step, id: Id)
    requires Sane(s) && Enabled(cfg, s, st) && Calm(st, id) && id in s.rows && Exclusive(s, id)
    requires !(st.Record? && st.id == id && !st.fault) && st != Replay(id)
    ensures var s' := Apply(cfg, s, st);
      && |s'.workers| == |s.workers| && id in s'.rows && id in s'.ledger
      && s'.rows[id].attempts == s.rows[id].attempts && (s.rows[id].Terminal() ==> s'.rows[id].Terminal())
      && (s'.ledger[id].answers == s.ledger[id].answers || (st.Send? && st.id == id && |s'.ledger[id].answers| == s.rows[id].attempts + 1 && !s.rows[id].Terminal()))
  {
    StepKeeps(cfg, s, st);
    if !(st.Record? && st.id == id) && !(st.Claim? && st.id == id) { StepRow(cfg, s, st, id); }
    if st.Send? && st.id == id { assert Holding(s.workers[st.w], id); }
  }

  lemma RecordWithinBudget(cfg: Config, s: State, st: Step, id: Id)
    requires Sane(s) && Enabled(cfg, s, st) && |s.workers| >= 1
    requires st.Record? && st.id == id && !st.fault
    requires id in s.rows && Exclusive(s, id) && WithinBudget(s, id)
    ensures Sane(Apply(cfg, s, st)) && WithinBudget(Apply(cfg, s, st), id)
  {
    StepSane(cfg, s, st);
    var s', w := Apply(cfg, s, st), st.w;
    var d, r, max := s.workers[w].phase.d, s.rows[id], s.rows[id].maxAttempts;
    assert WorkerOk(s.rows, s.workers[w]);
    if s.workers[w].phase.outcome.Retryable? && !LastAttempt(d) {
      assert !Permits(s'.workers[w], id, max);
      PermitUsed(s.workers, s'.workers, id, max, w);
    }
  }

  // ------------------------------------------------------------------ whole runs

  lemma {:induction false} RunBounded(cfg: Config, workers: nat, b: seq<State>, steps: seq<Step>, i: nat, id: Id)
    requires IsService(cfg, workers, b, steps) && i < |b| && workers >= 1
    requires Undisturbed(steps, id)
    ensures Sane(b[i]) && |b[i].workers| == workers
    ensures id in b[i].rows ==> Exclusive(b[i], id) && WithinBudget(b[i], id)
  {
    RunSane(cfg, workers, b, steps, i);
    if i > 0 {
      RunBounded(cfg, workers, b, steps, i - 1, id);
      var s, st := b[i - 1], steps[i - 1];
      assert Calm(st, id);
      if id in s.rows {
        StepExclusive(cfg, s, st, id);
        StepWithinBudget(cfg, s, st, id);
      } else if id in b[i].rows {
        NewExclusive(cfg, s, st, id);
      }
    }
  }

  /** With a limit of one no copy ever permits a retry. */
  ghost predicate OneShot(s: State, id: Id)
    requires id in s.rows && id in s.ledger
  {
    var r := s.rows[id];
    r.maxAttempts <= 1 ==> |s.ledger[id].answers| <= 1 && (!r.Terminal() ==> r.attempts == 0)
  }

  lemma StepOneShot(cfg: Config, s: State, st: Step, id: Id)
    requires Sane(s) && Enabled(cfg, s, st) && Calm(st, id)
    requires id in s.rows && Exclusive(s, id) && OneShot(s, id)
    ensures Sane(Apply(cfg, s, st)) && OneShot(Apply(cfg, s, st), id)
  {
    StepSane(cfg, s, st);
    StepKeeps(cfg, s, st);
    if st.Record? && st.id == id && !st.fault {
      RecordOneShot(cfg, s, st, id);
    } else if st != Replay(id) {
      SameAttempts(cfg, s, st, id);
    }
  }

  lemma RecordOneShot(cfg: Config, s: State, st: Step, id: Id)
    requires Sane(s) && Enabled(cfg, s, st) && st.Record? && st.id == id && !st.fault && Sane(Apply(cfg, s, st))
    requires id in s.rows && Exclusive(s, id) && OneShot(s, id)
    ensures OneShot(Apply(cfg, s, st), id)
  {
    assert WorkerOk(s.rows, s.workers[st.w]) && Holding(s.workers[st.w], id);
  }

  lemma NewOneShot(cfg: Config, s: State, st: Step, id: Id)
    requires Enabled(cfg, s, st) && id !in s.rows && id in Apply(cfg, s, st).rows && id in Apply(cfg, s, st).ledger
    ensures OneShot(Apply(cfg, s, st), id)
  {
  }

  lemma {:induction false} RunOneShot(cfg: Config, workers: nat, b: seq<State>, steps: seq<Step>, i: nat, id: Id)
    requires IsService(cfg, workers, b, steps) && i < |b| && workers >= 1 && Undisturbed(steps, id) && id in b[i].rows
    ensures Sane(b[i]) && OneShot(b[i], id)
  {
    RunSane(cfg, workers, b, steps, i);
    if i > 0 {
      var s, st := b[i - 1], steps[i - 1];
      assert Calm(st, id);
      if id in s.rows {
        RunBounded(cfg, workers, b, steps, i - 1, id);
        RunOneShot(cfg, workers, b, steps, i - 1, id);
        StepOneShot(cfg, s, st, id);
      } else {
        NewOneShot(cfg, s, st, id);
      }
    }
  }

  /** The most sends a delivery can cost: QOvershoot shows that it is reached. */
  function WorstCase(max: nat, workers: nat): nat
    requires workers >= 1
  {
    if max <= 1 then 1 else max + workers - 1
  }

  /** With `W` workers, however they interleave and crash, a delivery whose
      row is never reset as stale and never turned away costs at most
      `max_attempts + W - 1` sends from its insert or replay to its terminal
      state, and one if `max_attempts` is 1 (or 0); one worker keeps to
      `max_attempts`. */
  lemma SendsAreBounded(cfg: Config, workers: nat, b: seq<State>, steps: seq<Step>, i: nat, id: Id)
    requires IsService(cfg, workers, b, steps) && i < |b| && workers >= 1
    requires Undisturbed(steps, id)
    requires id in b[i].rows
    ensures id in b[i].ledger
    ensures |b[i].ledger[id].answers| <= WorstCase(b[i].rows[id].maxAttempts, workers)
  {
    RunBounded(cfg, workers, b, steps, i, id);
    RunOneShot(cfg, workers, b, steps, i, id);
  }

  /** A delivery that validation always turns away is never sent. */
  lemma {:induction false} RejectedIsNeverSent(cfg: Config, workers: nat, b: seq<State>, steps: seq<Step>, i: nat, id: Id)
    requires IsService(cfg, workers, b, steps) && i < |b|
    requires forall k | 0 <= k < |steps| :: steps[k].Claim? ==> steps[k].id != id
    ensures id in b[i].ledger ==> b[i].ledger[id].answers == []
    ensures forall w | 0 <= w < |b[i].workers| :: !Holding(b[i].workers[w], id)
  {
    if i > 0 {
      RejectedIsNeverSent(cfg, workers, b, steps, i - 1, id);
      var st := steps[i - 1];
      assert st.Claim? ==> st.id != id;
    }
  }

  /** In such runs a delivered row is final. */
  lemma {:induction false} DeliveredIsFinal(cfg: Config, workers: nat, b: seq<State>, steps: seq<Step>, i: nat, j: nat, id: Id)
    requires IsService(cfg, workers, b, steps) && i <= j < |b| && workers >= 1
    requires Undisturbed(steps, id)
    requires id in b[i].rows && b[i].rows[id].status == Status.Delivered
    ensures id in b[j].rows && b[j].rows[id] == b[i].rows[id]
    decreases j - i
  {
    if i < j {
      DeliveredIsFinal(cfg, workers, b, steps, i, j - 1, id);
      RunBounded(cfg, workers, b, steps, j - 1, id);
      assert Calm(steps[j - 1], id);
      DeliveredStays(cfg, b[j - 1], steps[j - 1], id);
    }
  }

  lemma DeliveredStays(cfg: Config, s: State, st: Step, id: Id)
    requires Sane(s) && Enabled(cfg, s, st) && Calm(st, id)
    requires id in s.rows && Exclusive(s, id) && s.rows[id].status == Status.Delivered
    ensures id in Apply(cfg, s, st).rows && Apply(cfg, s, st).rows[id] == s.rows[id]
  {
    StepKeeps(cfg, s, st);
    if !(st.Record? && st.id == id) && !(st.Claim? && st.id == id) && st != Replay(id) {
      StepRow(cfg, s, st, id);
    } else {
      assert st.Record? ==> Holding(s.workers[st.w], id);
    }
  }
}
