/** q: when a row that a failed send buried has cost exactly its limit. */
module QExact {
  import opened Common
  import opened QStore
  import opened QClassify
  import opened QProtocol
  import opened QSends
  import QLedgers
  import QOvershoot

  /** The row is dead-lettered and its last send failed retryably. */
  ghost predicate BuriedByFailure(s: State, id: Id) {
    && id in s.rows && id in s.ledger && s.rows[id].status == DeadLetter
    && s.ledger[id].answers != [] && Last(s.ledger[id].answers).Retryable?
  }

  function Last(answers: seq<Outcome>): Outcome
    requires answers != []
  {
    answers[|answers| - 1]
  }

  // ------------------------------------------------------------ the lower bound

  ghost predicate HasCopy(wk: Worker, id: Id) {
    Holding(wk, id) || exists i | 0 <= i < |wk.todo| :: wk.todo[i].id == id
  }

  /** No copy shows more attempts than `n`. */
  ghost predicate Behind(wk: Worker, id: Id, n: nat) {
    && (Holding(wk, id) ==> wk.phase.d.row.attempts <= n)
    && (forall i | 0 <= i < |wk.todo| && wk.todo[i].id == id :: wk.todo[i].row.attempts <= n)
  }

  ghost predicate NoneAhead(s: State, id: Id)
    requires id in s.rows
  {
    forall w | 0 <= w < |s.workers| :: Behind(s.workers[w], id, s.rows[id].attempts)
  }

  /** The answer that a holder is about to record is the last one. */
  ghost predicate Hears(s: State, wk: Worker, id: Id)
    requires id in s.ledger
  {
    Holding(wk, id) && wk.phase.Answered? ==> s.ledger[id].answers != [] && Last(s.ledger[id].answers) == wk.phase.outcome
  }

  ghost predicate AllHear(s: State, id: Id)
    requires id in s.ledger
  {
    forall w | 0 <= w < |s.workers| :: Hears(s, s.workers[w], id)
  }

  ghost predicate Paid(s: State, id: Id)
    requires id in s.rows
  {
    BuriedByFailure(s, id) ==> |s.ledger[id].answers| >= Budget(s.rows[id].maxAttempts)
  }

  /** A replay of the row finds no worker holding or listing it. */
  ghost predicate Unheld(s: State, st: Step, id: Id) {
    st == Replay(id) && Replayable(s.rows, id) ==> forall w | 0 <= w < |s.workers| :: !HasCopy(s.workers[w], id)
  }

  ghost predicate AllUnheld(b: seq<State>, steps: seq<Step>, id: Id)
    requires |b| == |steps| + 1
  {
    forall i | 0 <= i < |steps| :: Unheld(b[i], steps[i], id)
  }

  /** Attempts only grow, except by a replay. */
  lemma StepAttempts(cfg: Config, s: State, st: Step, id: Id)
    requires Sane(s) && Enabled(cfg, s, st) && Calm(st, id) && id in s.rows && Exclusive(s, id) && st != Replay(id)
    ensures id in Apply(cfg, s, st).rows && s.rows[id].attempts <= Apply(cfg, s, st).rows[id].attempts
  {
    if !(st.Record? && st.id == id && !st.fault) {
      SameAttempts(cfg, s, st, id);
    }
  }

  lemma StepBehind(cfg: Config, s: State, st: Step, id: Id, w: nat)
    requires Enabled(cfg, s, st) && id in s.rows && w < |s.workers| && Behind(s.workers[w], id, s.rows[id].attempts)
    ensures Behind(Apply(cfg, s, st).workers[w], id, s.rows[id].attempts)
  {
    var wk, wk' := s.workers[w], Apply(cfg, s, st).workers[w];
    if wk != wk' {
      if st.List? {
        assert wk'.todo == Listing(s.rows, st.batch);
      } else if st.Claim? || st.Reject? {
        assert forall i | 0 <= i < |wk'.todo| :: wk'.todo[i] == wk.todo[i + 1];
      }
    }
  }

  lemma StepNoneAhead(cfg: Config, s: State, st: Step, id: Id)
    requires Sane(s) && Enabled(cfg, s, st) && Calm(st, id) && Unheld(s, st, id)
    requires id in s.rows && Exclusive(s, id) && NoneAhead(s, id)
    ensures id in Apply(cfg, s, st).rows && NoneAhead(Apply(cfg, s, st), id)
  {
    StepKeeps(cfg, s, st);
    if st == Replay(id) {
      forall w | 0 <= w < |s.workers| ensures Behind(Apply(cfg, s, st).workers[w], id, Apply(cfg, s, st).rows[id].attempts) {
        assert Behind(s.workers[w], id, s.rows[id].attempts);
        assert Replayable(s.rows, id) ==> !HasCopy(s.workers[w], id);
      }
    } else {
      StepAttempts(cfg, s, st, id);
      forall w | 0 <= w < |s.workers| ensures Behind(Apply(cfg, s, st).workers[w], id, Apply(cfg, s, st).rows[id].attempts) {
        assert Behind(s.workers[w], id, s.rows[id].attempts);
        StepBehind(cfg, s, st, id, w);
      }
    }
  }

  lemma StepHears(cfg: Config, s: State, st: Step, id: Id, w: nat)
    requires Sane(s) && Enabled(cfg, s, st) && Calm(st, id) && w < |s.workers|
    requires id in s.rows && Exclusive(s, id) && AllHear(s, id) && id in Apply(cfg, s, st).ledger
    ensures Hears(Apply(cfg, s, st), Apply(cfg, s, st).workers[w], id)
  {
    if Holding(Apply(cfg, s, st).workers[w], id) {
      StepHolder(cfg, s, st, id, w);
      assert Hears(s, s.workers[w], id);
      if st.Send? && st.id == id {
        assert Holding(s.workers[st.w], id);
      } else if st.Record? && st.id == id {
        RecordFrees(cfg, s, st, id, w);
      } else if !(st.Claim? && st.id == id) {
        KeepsAnswers(cfg, s, st, id, w);
      }
    }
  }

  /** After its outcome is recorded nobody holds the row. */
  lemma RecordFrees(cfg: Config, s: State, st: Step, id: Id, w: nat)
    requires Enabled(cfg, s, st) && st.Record? && st.id == id && w < |s.workers|
    requires id in s.rows && id in s.ledger && Exclusive(s, id)
    ensures !Holding(Apply(cfg, s, st).workers[w], id)
  {
    assert Holding(s.workers[st.w], id);
  }

  /** While the row is held, only its holder's send adds an answer. */
  lemma KeepsAnswers(cfg: Config, s: State, st: Step, id: Id, w: nat)
    requires Sane(s) && Enabled(cfg, s, st) && Calm(st, id) && w < |s.workers|
    requires id in s.rows && Exclusive(s, id) && Holding(s.workers[w], id) && Holding(Apply(cfg, s, st).workers[w], id)
    requires !((st.Send? || st.Record? || st.Claim?) && st.id == id)
    ensures id in Apply(cfg, s, st).ledger && Apply(cfg, s, st).ledger[id].answers == s.ledger[id].answers
    ensures Apply(cfg, s, st).workers[w].phase == s.workers[w].phase
  {
    assert s.rows[id].status == InFlight;
    if st != Replay(id) { StepRow(cfg, s, st, id); }
    SamePhase(cfg, s, st, id, w);
  }

  lemma SamePhase(cfg: Config, s: State, st: Step, id: Id, w: nat)
    requires Enabled(cfg, s, st) && w < |s.workers|
    requires Holding(s.workers[w], id) && Holding(Apply(cfg, s, st).workers[w], id)
    requires !((st.Send? || st.Record? || st.Claim?) && st.id == id)
    ensures Apply(cfg, s, st).workers[w].phase == s.workers[w].phase
  {
  }

  /** What recording a send does to a row: a burial comes when the copy, and so
      the row, has no attempt left. */
  lemma RecordPaid(cfg: Config, s: State, st: Step, id: Id)
    requires Sane(s) && Enabled(cfg, s, st) && st.Record? && st.id == id
    requires id in s.rows && Exclusive(s, id) && NoneAhead(s, id) && AllHear(s, id)
    ensures id in Apply(cfg, s, st).rows && Paid(Apply(cfg, s, st), id)
  {
    var wk := s.workers[st.w];
    assert Holding(wk, id) && WorkerOk(s.rows, wk) && Behind(wk, id, s.rows[id].attempts) && Hears(s, wk, id);
  }

  lemma StepPaid(cfg: Config, s: State, st: Step, id: Id)
    requires Sane(s) && Enabled(cfg, s, st) && Calm(st, id)
    requires id in s.rows && Exclusive(s, id) && NoneAhead(s, id) && AllHear(s, id) && Paid(s, id)
    ensures id in Apply(cfg, s, st).rows && Paid(Apply(cfg, s, st), id)
  {
    StepKeeps(cfg, s, st);
    if st.Record? && st.id == id {
      RecordPaid(cfg, s, st, id);
    } else if !(st.Claim? && st.id == id) && st != Replay(id) {
      StepRow(cfg, s, st, id);
      if st.Send? && st.id == id { assert Holding(s.workers[st.w], id); }
    }
  }

  lemma NewPaid(cfg: Config, s: State, st: Step, id: Id)
    requires Sane(s) && Enabled(cfg, s, st) && id !in s.rows && id in Apply(cfg, s, st).rows
    ensures id in Apply(cfg, s, st).ledger
    ensures NoneAhead(Apply(cfg, s, st), id) && AllHear(Apply(cfg, s, st), id) && Paid(Apply(cfg, s, st), id)
  {
    StepLedger(cfg, s, st);
    assert st.Submit? && st.d.id == id;
    forall w | 0 <= w < |s.workers| ensures !HasCopy(s.workers[w], id) {
      assert WorkerOk(s.rows, s.workers[w]);
      assert forall i | 0 <= i < |s.workers[w].todo| :: SnapshotOk(s.rows, s.workers[w].todo[i]);
    }
  }

  lemma {:induction false} RunPaid(cfg: Config, workers: nat, b: seq<State>, steps: seq<Step>, i: nat, id: Id)
    requires IsService(cfg, workers, b, steps) && i < |b| && workers >= 1 && Undisturbed(steps, id) && AllUnheld(b, steps, id)
    requires id in b[i].rows
    ensures Sane(b[i]) && NoneAhead(b[i], id) && AllHear(b[i], id) && Paid(b[i], id)
  {
    RunSane(cfg, workers, b, steps, i);
    if i > 0 {
      var s, st := b[i - 1], steps[i - 1];
      RunBounded(cfg, workers, b, steps, i - 1, id);
      assert Calm(st, id) && Unheld(s, st, id);
      if id in s.rows {
        RunPaid(cfg, workers, b, steps, i - 1, id);
        StepAll(cfg, s, st, id);
      } else {
        NewPaid(cfg, s, st, id);
      }
    }
  }

  lemma StepAll(cfg: Config, s: State, st: Step, id: Id)
    requires Sane(s) && Enabled(cfg, s, st) && Calm(st, id) && Unheld(s, st, id)
    requires id in s.rows && Exclusive(s, id) && NoneAhead(s, id) && AllHear(s, id) && Paid(s, id)
    ensures var s' := Apply(cfg, s, st); id in s'.rows && id in s'.ledger && NoneAhead(s', id) && AllHear(s', id) && Paid(s', id)
  {
    StepKeeps(cfg, s, st);
    StepLedger(cfg, s, st);
    StepNoneAhead(cfg, s, st, id);
    StepPaid(cfg, s, st, id);
    forall w | 0 <= w < |s.workers| ensures Hears(Apply(cfg, s, st), Apply(cfg, s, st).workers[w], id) { StepHears(cfg, s, st, id, w); }
  }

  /** Any number of workers: unless a replay finds a copy of the row still
      held, a failed send buries it only after `max_attempts` sends. */
  lemma BuriedAfterLimit(cfg: Config, workers: nat, b: seq<State>, steps: seq<Step>, i: nat, id: Id)
    requires IsService(cfg, workers, b, steps) && i < |b| && workers >= 1 && Undisturbed(steps, id) && AllUnheld(b, steps, id)
    requires BuriedByFailure(b[i], id)
    ensures |b[i].ledger[id].answers| >= Budget(b[i].rows[id].maxAttempts)
  {
    RunPaid(cfg, workers, b, steps, i, id);
  }

  // ----------------------------------------------------------------- one worker

  /** One worker has no copy of a dead-lettered row. */
  lemma {:induction false} SoloUnheld(cfg: Config, b: seq<State>, steps: seq<Step>, id: Id)
    requires IsService(cfg, 1, b, steps)
    ensures AllUnheld(b, steps, id)
  {
    forall i | 0 <= i < |steps| ensures Unheld(b[i], steps[i], id) {
      QLedgers.RunSolo(cfg, b, steps, i, id);
      SoloStep(b[i], steps[i], id);
    }
  }

  lemma SoloStep(s: State, st: Step, id: Id)
    requires QLedgers.Solo(s, id)
    ensures Unheld(s, st, id)
  {
  }

  /** One worker, in any run: what is left to send, and what a burial spent. */
  ghost predicate Spent(s: State, id: Id)
    requires id in s.rows && id in s.ledger && |s.workers| == 1
  {
    var r, l := s.rows[id], s.ledger[id];
    && (!r.Terminal() ==> r.attempts < Budget(r.maxAttempts))
    && Hears(s, s.workers[0], id)
    && (l.bySend && l.answers != [] && Last(l.answers).Retryable? ==> r.attempts + 1 == Budget(r.maxAttempts))
  }

  lemma StepSpent(cfg: Config, s: State, st: Step, id: Id)
    requires Sane(s) && Enabled(cfg, s, st) && QLedgers.Solo(s, id)
    requires id in s.rows && QLedgers.Accounted(s, id) && Spent(s, id)
    ensures var s' := Apply(cfg, s, st); |s'.workers| == 1 && id in s'.rows && id in s'.ledger && Spent(s', id)
  {
    if !QLedgers.Concerns(st, id) {
      QLedgers.Unconcerned(cfg, s, st, id);
    } else if st.Record? {
      RecordSpent(cfg, s, st, id);
    } else if st.Send? {
      SendSpent(cfg, s, st, id);
    } else {
      OtherSpent(cfg, s, st, id);
    }
  }

  lemma RecordSpent(cfg: Config, s: State, st: Step, id: Id)
    requires Sane(s) && Enabled(cfg, s, st) && QLedgers.Solo(s, id) && st.Record? && st.id == id
    requires id in s.rows && QLedgers.Accounted(s, id) && Spent(s, id)
    ensures var s' := Apply(cfg, s, st); |s'.workers| == 1 && id in s'.rows && id in s'.ledger && Spent(s', id)
  {
    assert Holding(s.workers[0], id) && WorkerOk(s.rows, s.workers[0]);
  }

  lemma SendSpent(cfg: Config, s: State, st: Step, id: Id)
    requires Sane(s) && Enabled(cfg, s, st) && QLedgers.Solo(s, id) && st.Send? && st.id == id
    requires id in s.rows && QLedgers.Accounted(s, id) && Spent(s, id)
    ensures var s' := Apply(cfg, s, st); |s'.workers| == 1 && id in s'.rows && id in s'.ledger && Spent(s', id)
  {
    assert Holding(s.workers[0], id);
  }

  lemma OtherSpent(cfg: Config, s: State, st: Step, id: Id)
    requires Sane(s) && Enabled(cfg, s, st) && QLedgers.Solo(s, id)
    requires st.Startup? || st.Crash? || st == Replay(id) || ((st.Reject? || st.Claim?) && st.id == id)
    requires id in s.rows && QLedgers.Accounted(s, id) && Spent(s, id)
    ensures var s' := Apply(cfg, s, st); |s'.workers| == 1 && id in s'.rows && id in s'.ledger && Spent(s', id)
  {
    if st.Reject? || st.Claim? { assert s.workers[0].todo[0].id == id; }
  }

  lemma {:induction false} RunSpent(cfg: Config, b: seq<State>, steps: seq<Step>, i: nat, id: Id)
    requires IsService(cfg, 1, b, steps) && i < |b| && id in b[i].rows
    ensures |b[i].workers| == 1 && id in b[i].ledger && Spent(b[i], id)
  {
    RunSane(cfg, 1, b, steps, i);
    if i > 0 {
      var s, st := b[i - 1], steps[i - 1];
      QLedgers.RunSolo(cfg, b, steps, i - 1, id);
      if id in s.rows {
        QLedgers.SendsAccountedFor(cfg, b, steps, i - 1, id);
        RunSpent(cfg, b, steps, i - 1, id);
        StepSpent(cfg, s, st, id);
      } else {
        NewPaid(cfg, s, st, id);
      }
    }
  }

  /** One worker, with crashes, stale resets and lost writes anywhere: a row that
      a retryable failure buried cost `max_attempts` sends, and one for each
      whose outcome was lost. */
  lemma OneWorkerExact(cfg: Config, b: seq<State>, steps: seq<Step>, i: nat, id: Id)
    requires IsService(cfg, 1, b, steps) && i < |b| && BuriedByFailure(b[i], id) && b[i].ledger[id].bySend
    ensures |b[i].ledger[id].answers| == Budget(b[i].rows[id].maxAttempts) + b[i].ledger[id].unrecorded
  {
    RunSpent(cfg, b, steps, i, id);
    QLedgers.RunSolo(cfg, b, steps, i, id);
    QLedgers.NothingWaiting(b[i], id);
    QLedgers.SendsAccountedFor(cfg, b, steps, i, id);
  }

  // ------------------------------------------------- a replayed budget cut short

  lemma OnlyLastCopy(cfg: Config, s: State, w: nat, b: nat, max: nat) returns (s': State)
    requires w < |s.workers| && s.workers[w] == QOvershoot.Holder(b, max) && b + 1 >= max
    requires 1 in s.rows && s.rows[1].status == DeadLetter && s.rows[1].maxAttempts == max && 1 in s.ledger
    ensures QOvershoot.Leads(cfg, s, s')
    ensures BuriedByFailure(s', 1) && s'.rows[1].maxAttempts == max
    ensures var l := s'.ledger[1]; |l.answers| == 1 && l.bySend && l.unrecorded == 0
  {
    var s1 := Apply(cfg, s, Replay(1));
    QOvershoot.OneStep(cfg, s, Replay(1));
    assert s1.workers[w].todo[0] == Listed(1, QOvershoot.RowAt(b, max));
    var s2 := Apply(cfg, s1, Claim(w, 1, false));
    QOvershoot.OneStep(cfg, s1, Claim(w, 1, false));
    var s3 := Apply(cfg, s2, Send(w, 1, QOvershoot.FAILS));
    QOvershoot.OneStep(cfg, s2, Send(w, 1, QOvershoot.FAILS));
    s' := Apply(cfg, s3, Record(w, 1, 0, false));
    QOvershoot.OneStep(cfg, s3, Record(w, 1, 0, false));
    QOvershoot.Chain(cfg, s, s1, s2);
    QOvershoot.Chain(cfg, s, s2, s3);
    QOvershoot.Chain(cfg, s, s3, s');
  }

  /** With two workers or more and any limit above one: both list the row at its
      last attempt, one buries it, it is replayed, and the other's old copy
      lets a single failed send bury it again. */
  lemma ReplayCutShort(cfg: Config, workers: nat, max: nat) returns (b: seq<State>, steps: seq<Step>)
    requires cfg.limit >= 1 && workers >= 2 && max >= 2
    ensures IsService(cfg, workers, b, steps) && Undisturbed(steps, 1)
    ensures var s := b[|b| - 1];
      && BuriedByFailure(s, 1) && s.rows[1].maxAttempts == max
      && |s.ledger[1].answers| == 1 && s.ledger[1].bySend && s.ledger[1].unrecorded == 0
  {
    var a := max - 1;
    var idle, both := QOvershoot.Idle(workers), QOvershoot.FirstHold(a, max, workers, 2);
    QOvershoot.Accepted(cfg, workers, max);
    QOvershoot.OneRetries(cfg, a, max, workers);
    QOvershoot.AllList(cfg, a, max, workers, 2);
    var dead := QOvershoot.Ends(cfg, a, max, both, 0, false);
    var last := OnlyLastCopy(cfg, dead, 1, a, max);
    QOvershoot.Chain(cfg, Init(workers), QOvershoot.After(0, max, idle), QOvershoot.After(a, max, idle));
    QOvershoot.Chain(cfg, Init(workers), QOvershoot.After(a, max, idle), QOvershoot.After(a, max, both));
    QOvershoot.Chain(cfg, Init(workers), QOvershoot.After(a, max, both), dead);
    QOvershoot.Chain(cfg, Init(workers), dead, last);
    b, steps :| QOvershoot.RunBetween(cfg, b, steps, Init(workers), last);
  }

  // ------------------------------------------------------------ exactly the limit

  /** The promise of the README for rows that a retryable failure buried. */
  ghost predicate ExactlyLimit(cfg: Config, workers: nat, max: nat) {
    forall b: seq<State>, steps: seq<Step>, id: Id | IsService(cfg, workers, b, steps) && Undisturbed(steps, id) && BuriedAt(b, id, max) ::
      |b[|b| - 1].ledger[id].answers| == Budget(max)
  }

  ghost predicate BuriedAt(b: seq<State>, id: Id, max: nat) {
    b != [] && BuriedByFailure(b[|b| - 1], id) && b[|b| - 1].rows[id].maxAttempts == max
  }

  /** It holds in every run without stale resets and rejections exactly for one
      worker or a limit of at most one. */
  lemma ExactlyLimitIff(cfg: Config, workers: nat, max: nat)
    requires cfg.limit >= 1 && workers >= 1
    ensures ExactlyLimit(cfg, workers, max) <==> workers == 1 || max <= 1
  {
    if workers == 1 || max <= 1 {
      forall b: seq<State>, steps: seq<Step>, id: Id | IsService(cfg, workers, b, steps) && Undisturbed(steps, id) && BuriedAt(b, id, max)
        ensures |b[|b| - 1].ledger[id].answers| == Budget(max)
      {
        SendsAreBounded(cfg, workers, b, steps, |b| - 1, id);
        if max > 1 {
          SoloUnheld(cfg, b, steps, id);
          BuriedAfterLimit(cfg, workers, b, steps, |b| - 1, id);
        }
      }
    } else {
      var b, steps := ReplayCutShort(cfg, workers, max);
      assert BuriedAt(b, 1, max);
    }
  }
}
