/** q: what the rows and the dead-letter table account for. */
module QLedgers {
  import opened Common
  import opened QStore
  import opened QClassify
  import opened QProtocol
  import QSends

  // ------------------------------------------------------- the dead-letter table

  ghost function Entries(dlq: seq<DlqEntry>, id: Id): nat {
    if dlq == [] then 0
    else Entries(dlq[..|dlq| - 1], id) + if dlq[|dlq| - 1].deliveryId == id then 1 else 0
  }

  lemma EntriesSnoc(dlq: seq<DlqEntry>, e: DlqEntry, id: Id)
    ensures Entries(dlq + [e], id) == Entries(dlq, id) + if e.deliveryId == id then 1 else 0
  {
    assert (dlq + [e])[..|dlq|] == dlq;
  }

  ghost function Buried(s: State, id: Id): nat {
    if id in s.rows && s.rows[id].status == DeadLetter then 1 else 0
  }

  ghost function Replays(s: State, id: Id): nat {
    if id in s.ledger then s.ledger[id].replays else 0
  }

  /** The step writes a dead-letter entry for the row. */
  ghost predicate Burying(s: State, st: Step, id: Id) {
    && id in s.rows
    && ((st.Reject? && st.id == id && !st.fault)
        || (st.Record? && st.id == id && !st.fault && st.w < |s.workers| && s.workers[st.w].phase.Answered?
            && Buries(s.workers[st.w].phase.d, s.workers[st.w].phase.outcome)))
  }

  /** The validation error, or that of the answer. */
  ghost function BurialError(s: State, st: Step, id: Id): string
    requires Burying(s, st, id)
  {
    if st.Reject? then st.err else s.workers[st.w].phase.outcome.err
  }

  /** A step appends one entry for the row it buries, with that row's payload,
      destination and attempts of the moment, the error and the time, and
      appends nothing otherwise. */
  lemma StepEntries(cfg: Config, s: State, st: Step, id: Id)
    requires Sane(s) && Enabled(cfg, s, st)
    ensures var s' := Apply(cfg, s, st);
      if Burying(s, st, id) then
        s'.dlq == s.dlq + [DlqEntry(id, s.rows[id].destination, s.rows[id].payload, s.rows[id].attempts, BurialError(s, st, id), s.clock)]
      else
        Entries(s'.dlq, id) == Entries(s.dlq, id)
    ensures Burying(s, st, id) ==>
      Apply(cfg, s, st).rows[id] == s.rows[id].(status := DeadLetter, lastError := Some(BurialError(s, st, id)), updatedAt := s.clock)
    ensures s.dlq <= Apply(cfg, s, st).dlq
  {
    if Burying(s, st, id) {
      BuriesRow(cfg, s, st, id);
    } else if (st.Reject? || st.Record?) && st.id != id {
      BuriesOther(cfg, s, st, id);
    } else {
      SameDlq(cfg, s, st, id);
    }
  }

  lemma BuriesRow(cfg: Config, s: State, st: Step, id: Id)
    requires Sane(s) && Enabled(cfg, s, st) && Burying(s, st, id)
    ensures Apply(cfg, s, st).rows[id] == s.rows[id].(status := DeadLetter, lastError := Some(BurialError(s, st, id)), updatedAt := s.clock)
    ensures var r := s.rows[id];
      Apply(cfg, s, st).dlq == s.dlq + [DlqEntry(id, r.destination, r.payload, r.attempts, BurialError(s, st, id), s.clock)]
  {
  }

  lemma BuriesOther(cfg: Config, s: State, st: Step, id: Id)
    requires Sane(s) && Enabled(cfg, s, st) && (st.Reject? || st.Record?) && st.id != id
    ensures Entries(Apply(cfg, s, st).dlq, id) == Entries(s.dlq, id) && s.dlq <= Apply(cfg, s, st).dlq
  {
    var s' := Apply(cfg, s, st);
    if |s'.dlq| > |s.dlq| {
      var e := s'.dlq[|s.dlq|];
      assert s'.dlq == s.dlq + [e] && e.deliveryId != id;
      EntriesSnoc(s.dlq, e, id);
    }
  }

  lemma SameDlq(cfg: Config, s: State, st: Step, id: Id)
    requires Sane(s) && Enabled(cfg, s, st) && !Burying(s, st, id) && !((st.Reject? || st.Record?) && st.id != id)
    ensures Apply(cfg, s, st).dlq == s.dlq
  {
    if st.Record? { assert WorkerOk(s.rows, s.workers[st.w]); }
    if st.Reject? { assert SnapshotOk(s.rows, s.workers[st.w].todo[0]); }
  }

  /** A worker writes to a row that is dead-lettered already: the only steps
      that let the table and the replays drift apart. */
  ghost predicate HitsDead(s: State, st: Step, id: Id) {
    ((st.Reject? || st.Record?) && st.id == id && !st.fault) && Buried(s, id) == 1
  }

  lemma StepBalance(cfg: Config, s: State, st: Step, id: Id)
    requires Sane(s) && Enabled(cfg, s, st)
    ensures var s' := Apply(cfg, s, st);
      Entries(s'.dlq, id) - Replays(s', id) - Buried(s', id)
      == Entries(s.dlq, id) - Replays(s, id) - Buried(s, id) + if HitsDead(s, st, id) then 1 else 0
  {
    var s' := Apply(cfg, s, st);
    StepEntries(cfg, s, st, id);
    if Burying(s, st, id) {
      EntriesSnoc(s.dlq, s'.dlq[|s.dlq|], id);
    } else {
      StepStatus(cfg, s, st, id);
    }
  }

  lemma StepStatus(cfg: Config, s: State, st: Step, id: Id)
    requires Sane(s) && Enabled(cfg, s, st) && !Burying(s, st, id)
    ensures var s' := Apply(cfg, s, st);
      Replays(s', id) + Buried(s', id) == Replays(s, id) + Buried(s, id) - if HitsDead(s, st, id) then 1 else 0
  {
    if st.Record? {
      RecordStatus(cfg, s, st, id);
    } else if st.Reject? {
      RejectStatus(cfg, s, st, id);
    } else {
      OtherStatus(cfg, s, st, id);
    }
  }

  lemma RecordStatus(cfg: Config, s: State, st: Step, id: Id)
    requires Sane(s) && Enabled(cfg, s, st) && !Burying(s, st, id) && st.Record?
    ensures var s' := Apply(cfg, s, st);
      Replays(s', id) + Buried(s', id) == Replays(s, id) + Buried(s, id) - if HitsDead(s, st, id) then 1 else 0
  {
    if st.id == id { assert WorkerOk(s.rows, s.workers[st.w]); }
  }

  lemma RejectStatus(cfg: Config, s: State, st: Step, id: Id)
    requires Sane(s) && Enabled(cfg, s, st) && !Burying(s, st, id) && st.Reject?
    ensures var s' := Apply(cfg, s, st);
      Replays(s', id) + Buried(s', id) == Replays(s, id) + Buried(s, id) - if HitsDead(s, st, id) then 1 else 0
  {
    if st.id == id { assert SnapshotOk(s.rows, s.workers[st.w].todo[0]); }
  }

  lemma OtherStatus(cfg: Config, s: State, st: Step, id: Id)
    requires Sane(s) && Enabled(cfg, s, st) && !st.Record? && !st.Reject?
    ensures Replays(Apply(cfg, s, st), id) + Buried(Apply(cfg, s, st), id) == Replays(s, id) + Buried(s, id)
  {
  }

  ghost function HitSteps(b: seq<State>, steps: seq<Step>, i: nat, id: Id): set<int>
    requires i <= |steps| && |b| == |steps| + 1
  {
    set k: int | 0 <= k < i && HitsDead(b[k], steps[k], id)
  }

  /** How often that happened to the row in the first `i` steps. */
  ghost function Hits(b: seq<State>, steps: seq<Step>, i: nat, id: Id): nat
    requires i <= |steps| && |b| == |steps| + 1
  {
    |HitSteps(b, steps, i, id)|
  }

  lemma HitsNext(b: seq<State>, steps: seq<Step>, i: nat, id: Id)
    requires i < |steps| && |b| == |steps| + 1
    ensures Hits(b, steps, i + 1, id) == Hits(b, steps, i, id) + if HitsDead(b[i], steps[i], id) then 1 else 0
  {
    var before, hit := HitSteps(b, steps, i, id), HitsDead(b[i], steps[i], id);
    assert HitSteps(b, steps, i + 1, id) == if hit then before + {i} else before;
  }

  ghost predicate Balanced(b: seq<State>, steps: seq<Step>, i: nat, id: Id)
    requires i <= |steps| && |b| == |steps| + 1
  {
    Entries(b[i].dlq, id) == Replays(b[i], id) + Buried(b[i], id) + Hits(b, steps, i, id)
  }

  lemma BalanceNext(cfg: Config, workers: nat, b: seq<State>, steps: seq<Step>, i: nat, id: Id)
    requires IsService(cfg, workers, b, steps) && i < |steps| && Balanced(b, steps, i, id)
    ensures Balanced(b, steps, i + 1, id)
  {
    RunSane(cfg, workers, b, steps, i);
    StepBalance(cfg, b[i], steps[i], id);
    HitsNext(b, steps, i, id);
  }

  lemma StartBalanced(workers: nat, b: seq<State>, steps: seq<Step>, id: Id)
    requires |b| == |steps| + 1 && b[0] == Init(workers)
    ensures Balanced(b, steps, 0, id)
  {
  }

  lemma {:induction false} RunBalanced(cfg: Config, workers: nat, b: seq<State>, steps: seq<Step>, i: nat, id: Id)
    requires IsService(cfg, workers, b, steps) && i < |b|
    ensures Balanced(b, steps, i, id)
  {
    if i == 0 {
      StartBalanced(workers, b, steps, id);
    } else {
      RunBalanced(cfg, workers, b, steps, i - 1, id);
      BalanceNext(cfg, workers, b, steps, i - 1, id);
    }
  }

  /** Over every run: the entries of a delivery number its replays, plus one
      while it is dead-lettered, plus one for each write by a worker to the
      row while it was dead-lettered already. */
  lemma EntriesBalance(cfg: Config, workers: nat, b: seq<State>, steps: seq<Step>, i: nat, id: Id)
    requires IsService(cfg, workers, b, steps) && i < |b|
    ensures Entries(b[i].dlq, id) == Replays(b[i], id) + Buried(b[i], id) + Hits(b, steps, i, id)
  {
    RunBalanced(cfg, workers, b, steps, i, id);
  }

  // ---------------------------------------------------------------- one worker

  /** With one worker a listed copy is never stale while it waits or is held. */
  ghost predicate Solo(s: State, id: Id) {
    && |s.workers| == 1
    && (var wk := s.workers[0];
        && (forall i | 0 <= i < |wk.todo| && wk.todo[i].id == id :: id in s.rows && s.rows[id] == wk.todo[i].row && s.rows[id].status == Pending)
        && (Holding(wk, id) ==> id in s.rows && s.rows[id].status == InFlight && s.rows[id].attempts == wk.phase.d.row.attempts))
  }

  lemma StepSolo(cfg: Config, s: State, st: Step, id: Id)
    requires Sane(s) && Enabled(cfg, s, st) && Solo(s, id)
    ensures Solo(Apply(cfg, s, st), id)
  {
    if st.Claim? || st.Reject? {
      SoloNext(cfg, s, st, id);
    } else if st.Record? {
      SoloRecord(cfg, s, st, id);
    } else if st.Submit? || st.AnswerDuplicate? || st.Replay? || st.Advance? {
      SoloIdle(cfg, s, st, id);
    } else {
      SoloOther(cfg, s, st, id);
    }
  }

  lemma SoloIdle(cfg: Config, s: State, st: Step, id: Id)
    requires Sane(s) && Enabled(cfg, s, st) && Solo(s, id) && (st.Submit? || st.AnswerDuplicate? || st.Replay? || st.Advance?)
    ensures Solo(Apply(cfg, s, st), id)
  {
    assert Apply(cfg, s, st).workers == s.workers;
  }

  lemma SoloRecord(cfg: Config, s: State, st: Step, id: Id)
    requires Sane(s) && Enabled(cfg, s, st) && Solo(s, id) && st.Record?
    ensures Solo(Apply(cfg, s, st), id)
  {
    assert WorkerOk(s.rows, s.workers[0]);
    assert forall i | 0 <= i < |s.workers[0].todo| :: s.workers[0].todo[i].id != st.id;
  }

  lemma SoloOther(cfg: Config, s: State, st: Step, id: Id)
    requires Sane(s) && Enabled(cfg, s, st) && Solo(s, id) && (st.Startup? || st.List? || st.Send? || st.Crash?)
    ensures Solo(Apply(cfg, s, st), id)
  {
    assert WorkerOk(s.rows, s.workers[0]);
    if st.List? { assert Apply(cfg, s, st).workers[0].todo == Listing(s.rows, st.batch); }
  }

  lemma SoloNext(cfg: Config, s: State, st: Step, id: Id)
    requires Sane(s) && Enabled(cfg, s, st) && Solo(s, id) && (st.Claim? || st.Reject?)
    ensures Solo(Apply(cfg, s, st), id)
  {
    var s' := Apply(cfg, s, st);
    var wk, wk' := s.workers[0], s'.workers[0];
    assert WorkerOk(s.rows, wk);
    assert forall i | 0 <= i < |wk'.todo| :: wk'.todo[i] == wk.todo[i + 1];
    if st.id != id {
      assert id in s.rows ==> s'.rows[id] == s.rows[id];
    }
  }

  lemma {:induction false} RunSolo(cfg: Config, b: seq<State>, steps: seq<Step>, i: nat, id: Id)
    requires IsService(cfg, 1, b, steps) && i < |b|
    ensures Sane(b[i]) && Solo(b[i], id)
  {
    RunSane(cfg, 1, b, steps, i);
    if i > 0 {
      RunSolo(cfg, b, steps, i - 1, id);
      StepSolo(cfg, b[i - 1], steps[i - 1], id);
    }
  }

  lemma SoloHitsNothing(cfg: Config, s: State, st: Step, id: Id)
    requires Sane(s) && Enabled(cfg, s, st) && Solo(s, id)
    ensures !HitsDead(s, st, id)
  {
    if st.Record? && st.id == id { assert Holding(s.workers[0], id); }
    if st.Reject? && st.id == id { assert s.workers[0].todo[0].id == id; }
  }

  lemma CalmHitsNothing(cfg: Config, s: State, st: Step, id: Id)
    requires Enabled(cfg, s, st) && QSends.Calm(st, id)
    requires id in s.rows && id in s.ledger ==> QSends.Exclusive(s, id)
    requires s.ledger.Keys == s.rows.Keys
    ensures !HitsDead(s, st, id)
  {
    if st.Record? && st.id == id && id in s.rows { assert Holding(s.workers[st.w], id); }
  }

  lemma NoHits(cfg: Config, workers: nat, b: seq<State>, steps: seq<Step>, i: nat, id: Id)
    requires IsService(cfg, workers, b, steps) && i < |b| && workers >= 1
    requires workers == 1 || QSends.Undisturbed(steps, id)
    ensures Hits(b, steps, i, id) == 0
  {
    forall k | 0 <= k < i ensures !HitsDead(b[k], steps[k], id) { NoHit(cfg, workers, b, steps, k, id); }
    assert HitSteps(b, steps, i, id) == {};
  }

  lemma NoHit(cfg: Config, workers: nat, b: seq<State>, steps: seq<Step>, i: nat, id: Id)
    requires IsService(cfg, workers, b, steps) && i < |steps| && workers >= 1
    requires workers == 1 || QSends.Undisturbed(steps, id)
    ensures !HitsDead(b[i], steps[i], id)
  {
    RunSane(cfg, workers, b, steps, i);
    if workers == 1 {
      RunSolo(cfg, b, steps, i, id);
      SoloHitsNothing(cfg, b[i], steps[i], id);
    } else {
      QSends.RunBounded(cfg, workers, b, steps, i, id);
      CalmHitsNothing(cfg, b[i], steps[i], id);
    }
  }

  /** With one worker, or in runs without stale resets and rejections of the
      row, every entry is a replay made or the burial in force. */
  lemma EntriesExact(cfg: Config, workers: nat, b: seq<State>, steps: seq<Step>, i: nat, id: Id)
    requires IsService(cfg, workers, b, steps) && i < |b| && workers >= 1
    requires workers == 1 || QSends.Undisturbed(steps, id)
    ensures Entries(b[i].dlq, id) == Replays(b[i], id) + Buried(b[i], id)
  {
    EntriesBalance(cfg, workers, b, steps, i, id);
    NoHits(cfg, workers, b, steps, i, id);
  }

  // ------------------------------------------------------------- the send ledger

  /** One worker: every send is an attempt on the row, or was lost, or buried
      the row, or is waiting to be recorded. */
  ghost predicate Accounted(s: State, id: Id)
    requires id in s.rows && id in s.ledger && |s.workers| == 1
  {
    var r, l := s.rows[id], s.ledger[id];
    && |l.answers| == r.attempts + l.unrecorded + (if l.bySend then 1 else 0) + |AnsweredFor(s.workers, id)|
    && (l.bySend ==> r.status == DeadLetter)
  }

  lemma OneAnswered(workers: seq<Worker>, id: Id)
    requires |workers| == 1
    ensures |AnsweredFor(workers, id)| == if workers[0].phase.Answered? && workers[0].phase.d.id == id then 1 else 0
  {
    if workers[0].phase.Answered? && workers[0].phase.d.id == id {
      assert AnsweredFor(workers, id) == {0};
    } else {
      assert AnsweredFor(workers, id) == {};
    }
  }

  /** With one worker a terminal row has no answer waiting to be recorded. */
  lemma NothingWaiting(s: State, id: Id)
    requires Solo(s, id) && id in s.rows && s.rows[id].Terminal()
    ensures |AnsweredFor(s.workers, id)| == 0
  {
    OneAnswered(s.workers, id);
    assert s.workers[0].phase.Answered? && s.workers[0].phase.d.id == id ==> Holding(s.workers[0], id);
  }

  /** The steps after which a row or its ledger entry can differ. */
  predicate Concerns(st: Step, id: Id) {
    || st.Startup? || st.Crash? || st == Replay(id)
    || ((st.Reject? || st.Claim? || st.Send? || st.Record?) && st.id == id)
  }

  lemma Unconcerned(cfg: Config, s: State, st: Step, id: Id)
    requires Sane(s) && Enabled(cfg, s, st) && !Concerns(st, id) && id in s.rows && |s.workers| == 1
    ensures var s' := Apply(cfg, s, st);
      && |s'.workers| == 1
      && id in s'.rows && s'.rows[id] == s.rows[id] && id in s'.ledger && s'.ledger[id] == s.ledger[id]
      && (Holding(s'.workers[0], id) <==> Holding(s.workers[0], id))
      && (Holding(s'.workers[0], id) ==> s'.workers[0].phase == s.workers[0].phase)
  {
    OtherRow(cfg, s, st, id);
    OtherHolding(cfg, s, st, id);
  }

  lemma OtherRow(cfg: Config, s: State, st: Step, id: Id)
    requires Sane(s) && Enabled(cfg, s, st) && !Concerns(st, id) && id in s.rows
    ensures var s' := Apply(cfg, s, st);
      id in s'.rows && s'.rows[id] == s.rows[id] && id in s'.ledger && s'.ledger[id] == s.ledger[id]
  {
  }

  lemma OtherHolding(cfg: Config, s: State, st: Step, id: Id)
    requires Enabled(cfg, s, st) && !Concerns(st, id) && |s.workers| == 1
    ensures var s' := Apply(cfg, s, st);
      && |s'.workers| == 1
      && (Holding(s'.workers[0], id) <==> Holding(s.workers[0], id))
      && (Holding(s'.workers[0], id) ==> s'.workers[0].phase == s.workers[0].phase)
  {
  }

  lemma StepAccounted(cfg: Config, s: State, st: Step, id: Id)
    requires Sane(s) && Enabled(cfg, s, st) && Solo(s, id)
    requires id in s.rows && Accounted(s, id)
    ensures var s' := Apply(cfg, s, st); |s'.workers| == 1 && id in s'.rows && id in s'.ledger && Accounted(s', id)
  {
    OneAnswered(s.workers, id);
    if !Concerns(st, id) {
      Unconcerned(cfg, s, st, id);
      OneAnswered(Apply(cfg, s, st).workers, id);
    } else if st.Record? {
      RecordAccounted(cfg, s, st, id);
    } else if st.Reject? || st.Claim? || st.Send? {
      HeadAccounted(cfg, s, st, id);
    } else {
      RestartAccounted(cfg, s, st, id);
    }
  }

  lemma HeadAccounted(cfg: Config, s: State, st: Step, id: Id)
    requires Sane(s) && Enabled(cfg, s, st) && Solo(s, id) && (st.Reject? || st.Claim? || st.Send?) && st.id == id
    requires id in s.rows && Accounted(s, id)
    ensures var s' := Apply(cfg, s, st); |s'.workers| == 1 && id in s'.rows && id in s'.ledger && Accounted(s', id)
  {
    if !st.Send? { assert s.workers[0].todo[0].id == id; }
    OneAnswered(s.workers, id);
    OneAnswered(Apply(cfg, s, st).workers, id);
  }

  lemma RestartAccounted(cfg: Config, s: State, st: Step, id: Id)
    requires Sane(s) && Enabled(cfg, s, st) && Solo(s, id) && (st.Startup? || st.Crash? || st == Replay(id))
    requires id in s.rows && Accounted(s, id)
    ensures var s' := Apply(cfg, s, st); |s'.workers| == 1 && id in s'.rows && id in s'.ledger && Accounted(s', id)
  {
    OneAnswered(s.workers, id);
    OneAnswered(Apply(cfg, s, st).workers, id);
  }

  lemma RecordAccounted(cfg: Config, s: State, st: Step, id: Id)
    requires Sane(s) && Enabled(cfg, s, st) && Solo(s, id) && st.Record? && st.id == id
    requires id in s.rows && Accounted(s, id)
    ensures var s' := Apply(cfg, s, st); |s'.workers| == 1 && id in s'.rows && id in s'.ledger && Accounted(s', id)
  {
    assert Holding(s.workers[0], id);
    OneAnswered(s.workers, id);
    OneAnswered(Apply(cfg, s, st).workers, id);
  }

  /** One worker, crashing, restarting and losing writes anywhere. */
  lemma {:induction false} SendsAccountedFor(cfg: Config, b: seq<State>, steps: seq<Step>, i: nat, id: Id)
    requires IsService(cfg, 1, b, steps) && i < |b| && id in b[i].rows
    ensures |b[i].workers| == 1 && id in b[i].ledger && Accounted(b[i], id)
  {
    RunSane(cfg, 1, b, steps, i);
    OneAnswered(b[i].workers, id);
    if i > 0 {
      var s, st := b[i - 1], steps[i - 1];
      RunSolo(cfg, b, steps, i - 1, id);
      if id in s.rows {
        SendsAccountedFor(cfg, b, steps, i - 1, id);
        StepAccounted(cfg, s, st, id);
      } else {
        assert WorkerOk(s.rows, s.workers[0]);
      }
    }
  }

  // ------------------------------------------------------------ a delivery's life

  ghost predicate AllRetryable(answers: seq<Outcome>) {
    forall i | 0 <= i < |answers| :: answers[i].Retryable?
  }

  /** While nothing was lost, the answers so far decide the row. */
  ghost predicate OnCourse(s: State, id: Id)
    requires id in s.rows && id in s.ledger && |s.workers| == 1
  {
    var r, l, wk := s.rows[id], s.ledger[id], s.workers[0];
    var max, n := Max(1, r.maxAttempts), |l.answers|;
    l.unrecorded == 0 ==>
      && (Pending == r.status ==> AllRetryable(l.answers) && r.attempts < max)
      && (InFlight == r.status ==> r.attempts < max)
      && (InFlight == r.status ==>
            if Holding(wk, id) && wk.phase.Answered?
            then n > 0 && l.answers[n - 1] == wk.phase.outcome && AllRetryable(l.answers[..n - 1])
            else AllRetryable(l.answers))
      && (r.status == Status.Delivered ==> n > 0 && AllRetryable(l.answers[..n - 1]) && l.answers[n - 1].Delivered?)
      && (r.status == Status.Delivered ==> r.attempts <= max)
      && (l.bySend ==> n > 0 && AllRetryable(l.answers[..n - 1]) && !l.answers[n - 1].Delivered?)
      && (l.bySend ==> r.attempts < max && (l.answers[n - 1].Retryable? ==> r.attempts + 1 == max))
  }

  lemma StepOnCourse(cfg: Config, s: State, st: Step, id: Id)
    requires Sane(s) && Enabled(cfg, s, st) && Solo(s, id)
    requires id in s.rows && Accounted(s, id) && OnCourse(s, id)
    ensures var s' := Apply(cfg, s, st); |s'.workers| == 1 && id in s'.rows && id in s'.ledger && OnCourse(s', id)
  {
    if !Concerns(st, id) {
      Unconcerned(cfg, s, st, id);
    } else if st.Record? {
      RecordOnCourse(cfg, s, st, id);
    } else if st.Send? {
      SendOnCourse(cfg, s, st, id);
    } else if st.Reject? || st.Claim? {
      NextOnCourse(cfg, s, st, id);
    } else {
      RestartOnCourse(cfg, s, st, id);
    }
  }

  lemma SendOnCourse(cfg: Config, s: State, st: Step, id: Id)
    requires Sane(s) && Enabled(cfg, s, st) && Solo(s, id) && st.Send? && st.id == id
    requires id in s.rows && Accounted(s, id) && OnCourse(s, id)
    ensures var s' := Apply(cfg, s, st); |s'.workers| == 1 && id in s'.rows && id in s'.ledger && OnCourse(s', id)
  {
    assert Holding(s.workers[0], id) && s.rows[id].status == InFlight;
    assert (s.ledger[id].answers + [st.outcome])[..|s.ledger[id].answers|] == s.ledger[id].answers;
  }

  lemma NextOnCourse(cfg: Config, s: State, st: Step, id: Id)
    requires Sane(s) && Enabled(cfg, s, st) && Solo(s, id) && (st.Reject? || st.Claim?) && st.id == id
    requires id in s.rows && Accounted(s, id) && OnCourse(s, id)
    ensures var s' := Apply(cfg, s, st); |s'.workers| == 1 && id in s'.rows && id in s'.ledger && OnCourse(s', id)
  {
    assert s.workers[0].todo[0].id == id && s.rows[id].status == Pending;
  }

  lemma RestartOnCourse(cfg: Config, s: State, st: Step, id: Id)
    requires Sane(s) && Enabled(cfg, s, st) && Solo(s, id) && (st.Startup? || st.Crash? || st == Replay(id))
    requires id in s.rows && Accounted(s, id) && OnCourse(s, id)
    ensures var s' := Apply(cfg, s, st); |s'.workers| == 1 && id in s'.rows && id in s'.ledger && OnCourse(s', id)
  {
    OneAnswered(s.workers, id);
    if st.Replay? { assert !Holding(s.workers[0], id) || s.rows[id].status == InFlight; }
  }

  lemma RecordOnCourse(cfg: Config, s: State, st: Step, id: Id)
    requires Sane(s) && Enabled(cfg, s, st) && Solo(s, id) && st.Record? && st.id == id
    requires id in s.rows && Accounted(s, id) && OnCourse(s, id)
    ensures var s' := Apply(cfg, s, st); |s'.workers| == 1 && id in s'.rows && id in s'.ledger && OnCourse(s', id)
  {
    if st.fault {
      RecordLost(cfg, s, st, id);
    } else {
      RecordTold(cfg, s, st, id);
    }
  }

  lemma RecordLost(cfg: Config, s: State, st: Step, id: Id)
    requires Sane(s) && Enabled(cfg, s, st) && Solo(s, id) && st.Record? && st.id == id && st.fault
    requires id in s.rows && id in s.ledger
    ensures var s' := Apply(cfg, s, st); |s'.workers| == 1 && id in s'.rows && id in s'.ledger && OnCourse(s', id)
  {
  }

  lemma RecordTold(cfg: Config, s: State, st: Step, id: Id)
    requires Sane(s) && Enabled(cfg, s, st) && Solo(s, id) && st.Record? && st.id == id && !st.fault
    requires id in s.rows && Accounted(s, id) && OnCourse(s, id)
    ensures var s' := Apply(cfg, s, st); |s'.workers| == 1 && id in s'.rows && id in s'.ledger && OnCourse(s', id)
  {
    assert Holding(s.workers[0], id) && WorkerOk(s.rows, s.workers[0]);
    var l := s.ledger[id];
    if l.unrecorded == 0 { assert l.answers == l.answers[..|l.answers| - 1] + [l.answers[|l.answers| - 1]]; }
  }

  lemma {:induction false} RunOnCourse(cfg: Config, b: seq<State>, steps: seq<Step>, i: nat, id: Id)
    requires IsService(cfg, 1, b, steps) && i < |b| && id in b[i].rows
    ensures |b[i].workers| == 1 && id in b[i].ledger && Accounted(b[i], id) && OnCourse(b[i], id)
  {
    SendsAccountedFor(cfg, b, steps, i, id);
    if i > 0 {
      var s, st := b[i - 1], steps[i - 1];
      RunSane(cfg, 1, b, steps, i);
      RunSolo(cfg, b, steps, i - 1, id);
      if id in s.rows {
        RunOnCourse(cfg, b, steps, i - 1, id);
        StepOnCourse(cfg, s, st, id);
      } else {
        assert WorkerOk(s.rows, s.workers[0]);
      }
    }
  }
}
