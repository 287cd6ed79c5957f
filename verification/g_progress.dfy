/** g: what a delivery's answers decide while leases hold, and recoverability. */
module GProgress {
  import opened Common
  import opened Answers
  import opened GProtocol
  import opened GLeases

  // ------------------------------------------------------------- a delivery's life

  predicate AnsweredTask(s: State, t: nat, id: Id) {
    HasTask(s, t, id) && s.tasks[t].result.Some?
  }

  /** While no answer was lost, the row tells what the answers were. */
  ghost predicate OnCourse(s: State, id: Id)
    requires id in s.rows && id in s.ledger
  {
    var r, a := s.rows[id], s.ledger[id].answers;
    s.ledger[id].lost == 0 ==>
      && (r.status == Pending ==> |a| == r.attempts && AllFailed(a))
      && (r.status == Processing && (forall t :: !AnsweredTask(s, t, id)) ==> |a| == r.attempts && AllFailed(a))
      && (forall t | AnsweredTask(s, t, id) :: |a| == r.attempts + 1 && FailedButLast(a, s.tasks[t].result.value.Ok?))
      && (r.status == Delivered ==> |a| == r.attempts && FailedButLast(a, true))
      && (r.status == DeadLettered ==> |a| == r.attempts == r.maxAttempts && AllFailed(a))
  }

  lemma StepOnCourse(cfg: Config, s: State, st: Step, id: Id)
    requires Sane(s) && Enabled(cfg, s, st) && Timely(cfg, s) && Leased(s, id)
    requires id in s.rows && OnCourse(s, id)
    ensures id in Apply(cfg, s, st).rows && id in Apply(cfg, s, st).ledger && OnCourse(Apply(cfg, s, st), id)
  {
    StepLedger(cfg, s, st);
    if st.Finalize? && s.tasks[st.t].id == id {
      FinalizeOnCourse(cfg, s, st, id);
    } else if st.Respond? && s.tasks[st.t].id == id {
      RespondOnCourse(cfg, s, st, id);
    } else if st.RequeueWrite? && !st.fault && s.requeues[st.q] == id {
      RequeueOnCourse(cfg, s, st, id);
    } else if st.Crash? {
      CrashOnCourse(cfg, s, st, id);
    } else if st.Claim? || st.Reclaim? || st.Restart? {
      StatusOnCourse(cfg, s, st, id);
    } else {
      OtherOnCourse(cfg, s, st, id);
    }
  }

  lemma FinalizeOnCourse(cfg: Config, s: State, st: Step, id: Id)
    requires Sane(s) && Enabled(cfg, s, st) && Leased(s, id) && st.Finalize? && s.tasks[st.t].id == id
    requires id in s.rows && OnCourse(s, id)
    ensures id in Apply(cfg, s, st).ledger && OnCourse(Apply(cfg, s, st), id)
  {
    var s' := Apply(cfg, s, st);
    assert AnsweredTask(s, st.t, id) && TaskOk(s, s.tasks[st.t]) && LeaseOk(s, st.t);
    forall t: nat ensures !AnsweredTask(s', t, id) {
      if HasTask(s', t, id) { FinalizeTask(cfg, s, st, id, t); }
    }
    if s.ledger[id].lost == 0 && !s.tasks[st.t].result.value.Ok? { AllTheSame(s.ledger[id].answers); }
  }

  lemma RespondOnCourse(cfg: Config, s: State, st: Step, id: Id)
    requires Sane(s) && Enabled(cfg, s, st) && Leased(s, id) && st.Respond? && s.tasks[st.t].id == id
    requires id in s.rows && OnCourse(s, id)
    ensures id in Apply(cfg, s, st).ledger && OnCourse(Apply(cfg, s, st), id)
  {
    var s' := Apply(cfg, s, st);
    assert HasTask(s, st.t, id) && LeaseOk(s, st.t);
    assert forall t | HasTask(s, t, id) :: t == st.t;
    assert AnsweredTask(s', st.t, id);
    forall t | AnsweredTask(s', t, id) ensures t == st.t { assert HasTask(s, t, id); }
    if s.ledger[id].lost == 0 { OneMore(s.ledger[id].answers, st.result.Ok?); }
  }

  lemma RequeueOnCourse(cfg: Config, s: State, st: Step, id: Id)
    requires Sane(s) && Enabled(cfg, s, st) && Leased(s, id) && st.RequeueWrite? && !st.fault && s.requeues[st.q] == id
    requires id in s.rows
    ensures id in Apply(cfg, s, st).ledger && OnCourse(Apply(cfg, s, st), id)
  {
    assert HasRequeue(s, st.q, id);
    forall t: nat ensures !AnsweredTask(Apply(cfg, s, st), t, id) {
      assert HasTask(Apply(cfg, s, st), t, id) ==> HasTask(s, t, id) && LeaseOk(s, t);
    }
  }

  lemma CrashOnCourse(cfg: Config, s: State, st: Step, id: Id)
    requires Sane(s) && Enabled(cfg, s, st) && Leased(s, id) && st.Crash?
    requires id in s.rows && OnCourse(s, id)
    ensures id in Apply(cfg, s, st).ledger && OnCourse(Apply(cfg, s, st), id)
  {
    var s' := Apply(cfg, s, st);
    assert forall t :: !AnsweredTask(s', t, id);
    if t :| AnsweredTask(s, t, id) {
      assert t in AnsweredFor(s.tasks, id);
    }
  }

  lemma StatusOnCourse(cfg: Config, s: State, st: Step, id: Id)
    requires Sane(s) && Enabled(cfg, s, st) && Timely(cfg, s) && Leased(s, id) && (st.Claim? || st.Reclaim? || st.Restart?)
    requires id in s.rows && OnCourse(s, id)
    ensures id in Apply(cfg, s, st).ledger && OnCourse(Apply(cfg, s, st), id)
  {
    if st.Claim? {
      ClaimOnCourse(cfg, s, st, id);
    } else if st.Reclaim? {
      ReclaimOnCourse(cfg, s, st, id);
    } else {
      assert forall t: nat :: !AnsweredTask(Apply(cfg, s, st), t, id);
      assert forall t: nat :: !AnsweredTask(s, t, id);
    }
  }

  lemma ClaimOnCourse(cfg: Config, s: State, st: Step, id: Id)
    requires Sane(s) && Enabled(cfg, s, st) && Leased(s, id) && st.Claim? && id in s.rows && OnCourse(s, id)
    ensures id in Apply(cfg, s, st).ledger && OnCourse(Apply(cfg, s, st), id)
  {
    var s' := Apply(cfg, s, st);
    forall t: nat ensures AnsweredTask(s', t, id) <==> AnsweredTask(s, t, id) {
      if t in s.tasks { assert t < s.nextTask; }
    }
    assert forall t | AnsweredTask(s, t, id) :: HasTask(s, t, id) && LeaseOk(s, t);
    if id in st.batch { ClaimPicksPending(cfg, s, st, id); }
  }

  lemma ReclaimOnCourse(cfg: Config, s: State, st: Step, id: Id)
    requires Sane(s) && Enabled(cfg, s, st) && Timely(cfg, s) && Leased(s, id) && st.Reclaim? && id in s.rows && OnCourse(s, id)
    ensures id in Apply(cfg, s, st).ledger && OnCourse(Apply(cfg, s, st), id)
  {
    var s' := Apply(cfg, s, st);
    ReclaimEffect(cfg, s, st);
    assert forall t: nat :: AnsweredTask(s', t, id) <==> AnsweredTask(s, t, id);
    assert forall t | AnsweredTask(s, t, id) :: HasTask(s, t, id) && LeaseOk(s, t) && s.clock <= s.tasks[t].claimedAt + cfg.visibilityMs;
    assert s'.rows[id].attempts == s.rows[id].attempts;
  }

  lemma OtherOnCourse(cfg: Config, s: State, st: Step, id: Id)
    requires Sane(s) && Enabled(cfg, s, st) && Leased(s, id)
    requires !st.Crash? && !st.Claim? && !st.Reclaim? && !st.Restart?
    requires (st.Finalize? || st.Respond?) ==> s.tasks[st.t].id != id
    requires st.RequeueWrite? && !st.fault ==> s.requeues[st.q] != id
    requires id in s.rows && OnCourse(s, id)
    ensures id in Apply(cfg, s, st).rows && id in Apply(cfg, s, st).ledger && OnCourse(Apply(cfg, s, st), id)
  {
    OtherRow(cfg, s, st, id);
    forall t: nat ensures SameAnswer(s, Apply(cfg, s, st), t, id) { OtherTask(cfg, s, st, id, t); }
    Carries(s, Apply(cfg, s, st), id);
  }

  ghost predicate SameAnswer(s: State, s': State, t: nat, id: Id) {
    && (AnsweredTask(s', t, id) <==> AnsweredTask(s, t, id))
    && (AnsweredTask(s, t, id) ==> t in s'.tasks && s'.tasks[t].result == s.tasks[t].result)
  }

  lemma OtherRow(cfg: Config, s: State, st: Step, id: Id)
    requires Sane(s) && Enabled(cfg, s, st) && id in s.rows
    requires !st.Crash? && !st.Claim? && !st.Reclaim? && !st.Restart?
    requires (st.Finalize? || st.Respond?) ==> s.tasks[st.t].id != id
    requires st.RequeueWrite? && !st.fault ==> s.requeues[st.q] != id
    ensures var s' := Apply(cfg, s, st);
      id in s'.rows && s'.rows[id] == s.rows[id] && id in s'.ledger && s'.ledger[id] == s.ledger[id]
  {
  }

  lemma OtherTask(cfg: Config, s: State, st: Step, id: Id, t: nat)
    requires Enabled(cfg, s, st) && !st.Crash? && !st.Claim? && !st.Reclaim? && !st.Restart?
    requires (st.Finalize? || st.Respond?) ==> s.tasks[st.t].id != id
    ensures SameAnswer(s, Apply(cfg, s, st), t, id)
  {
  }

  lemma Carries(s: State, s': State, id: Id)
    requires id in s.rows && id in s.ledger && OnCourse(s, id)
    requires id in s'.rows && s'.rows[id] == s.rows[id] && id in s'.ledger && s'.ledger[id] == s.ledger[id]
    requires forall t: nat :: SameAnswer(s, s', t, id)
    ensures OnCourse(s', id)
  {
    forall t: nat ensures AnsweredTask(s', t, id) <==> AnsweredTask(s, t, id) { assert SameAnswer(s, s', t, id); }
    forall t: nat | AnsweredTask(s', t, id) ensures AnsweredTask(s, t, id) && s'.tasks[t].result == s.tasks[t].result {
      assert SameAnswer(s, s', t, id);
    }
  }

  lemma {:induction false} RunOnCourse(cfg: Config, b: seq<State>, steps: seq<Step>, i: nat, id: Id)
    requires IsService(cfg, b, steps) && i < |b| && AllTimely(cfg, b) && id in b[i].rows
    ensures Sane(b[i]) && OnCourse(b[i], id)
  {
    RunSane(cfg, b, steps, i);
    if i > 0 {
      var s, st := b[i - 1], steps[i - 1];
      RunLeased(cfg, b, steps, i - 1, id);
      if id in s.rows {
        RunOnCourse(cfg, b, steps, i - 1, id);
        StepOnCourse(cfg, s, st, id);
      } else {
        NewOnCourse(cfg, s, st, id);
      }
    }
  }

  lemma NewOnCourse(cfg: Config, s: State, st: Step, id: Id)
    requires Sane(s) && Enabled(cfg, s, st) && id !in s.rows && id in Apply(cfg, s, st).rows
    ensures id in Apply(cfg, s, st).ledger && OnCourse(Apply(cfg, s, st), id)
  {
    assert st.Create?;
    forall t: nat ensures !AnsweredTask(Apply(cfg, s, st), t, id) {
      assert t in s.tasks ==> TaskOk(s, s.tasks[t]);
    }
  }
}
