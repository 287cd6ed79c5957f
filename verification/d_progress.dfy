/** d: what a job's answers decide. */
module DProgress {
  import opened Common
  import opened Answers
  import opened DProtocol

  ghost predicate Heading(s: State, id: Id) {
    Judged(s) && s.todo[0].id == id
  }

  ghost predicate EntryFrom(s: State, e: Id, id: Id) {
    e in s.dead && s.dead[e].jobId == id
  }

  ghost predicate JobOnCourse(s: State, id: Id)
    requires id in s.jobs && id in s.ledger
  {
    var job, l := s.jobs[id], s.ledger[id];
    var n := |l.answers|;
    if job.status == Delivered then
      n == job.attempts + 1 && FailedButLast(l.answers, true)
    else if Heading(s, id) && !s.verdict.value.Blocked? then
      n == job.attempts + 1 && FailedButLast(l.answers, s.verdict.value.Ok?) && !l.blocked
    else
      n == job.attempts && AllFailed(l.answers) && (l.blocked <==> Heading(s, id))
  }

  ghost predicate EntryOnCourse(s: State, e: Id, id: Id)
    requires e in s.dead && id in s.ledger
  {
    var l := s.ledger[id];
    && |l.answers| == s.dead[e].attempts && AllFailed(l.answers)
    && (l.blocked || s.dead[e].attempts == Budget(l.maxAttempts))
    && (id in s.jobs ==> s.lock == Moving(e) && Heading(s, id))
  }

  /** While no outcome was lost, the row or its entry tells what the answers were. */
  ghost predicate OnCourse(s: State, id: Id)
    requires id in s.ledger
  {
    s.ledger[id].lost == 0 ==>
      && (id in s.jobs ==> JobOnCourse(s, id))
      && (forall e | EntryFrom(s, e, id) :: EntryOnCourse(s, e, id))
  }

  lemma StepOnCourse(cfg: Config, s: State, st: Step, id: Id)
    requires Sane(s) && Enabled(s, st) && id in s.ledger && OnCourse(s, id)
    ensures id in Apply(cfg, s, st).ledger && OnCourse(Apply(cfg, s, st), id)
  {
    StepGrows(cfg, s, st);
    if st.Judge? {
      JudgeOnCourse(cfg, s, st, id);
    } else if st.Record? {
      RecordOnCourse(cfg, s, st, id);
    } else if st.InsertEntry? {
      InsertEntryOnCourse(cfg, s, st, id);
    } else if st.DeleteJob? {
      DeleteJobOnCourse(cfg, s, st, id);
    } else if st.Crash? {
      CrashOnCourse(cfg, s, st, id);
    } else {
      OtherOnCourse(cfg, s, st, id);
    }
  }

  lemma JudgeOnCourse(cfg: Config, s: State, st: Step, id: Id)
    requires Sane(s) && Enabled(s, st) && st.Judge? && id in s.ledger && OnCourse(s, id)
    ensures id in Apply(cfg, s, st).ledger && OnCourse(Apply(cfg, s, st), id)
  {
    var s' := Apply(cfg, s, st);
    assert forall e | EntryFrom(s', e, id) :: EntryFrom(s, e, id);
    if s.todo[0].id == id {
      assert id in s.jobs;
      if s.ledger[id].lost == 0 && !st.outcome.Blocked? { OneMore(s.ledger[id].answers, st.outcome.Ok?); }
    }
  }

  /** All that a delivery's life depends on is unchanged. */
  ghost predicate SameView(s: State, s': State, id: Id)
    requires id in s.ledger && id in s'.ledger
  {
    && s'.ledger[id] == s.ledger[id]
    && (id in s'.jobs <==> id in s.jobs) && (id in s.jobs ==> s'.jobs[id] == s.jobs[id])
    && (Heading(s', id) <==> Heading(s, id))
    && (Heading(s, id) ==> s'.verdict == s.verdict && (s.lock.Moving? ==> s'.lock == s.lock))
    && (forall e | EntryFrom(s', e, id) :: EntryFrom(s, e, id) && s'.dead[e] == s.dead[e])
  }

  lemma OnCourseCarries(s: State, s': State, id: Id)
    requires id in s.ledger && id in s'.ledger && SameView(s, s', id) && OnCourse(s, id)
    ensures OnCourse(s', id)
  {
  }

  lemma RecordOnCourse(cfg: Config, s: State, st: Step, id: Id)
    requires Sane(s) && Enabled(s, st) && st.Record? && id in s.ledger && OnCourse(s, id)
    ensures id in Apply(cfg, s, st).ledger && OnCourse(Apply(cfg, s, st), id)
  {
    NotNext(s, id);
    if s.todo[0].id == id {
      RecordHead(cfg, s, st, id);
    } else {
      RecordView(cfg, s, st, id);
      OnCourseCarries(s, Apply(cfg, s, st), id);
    }
  }

  lemma RecordView(cfg: Config, s: State, st: Step, id: Id)
    requires Sane(s) && Enabled(s, st) && st.Record? && id in s.ledger && s.todo[0].id != id
    ensures id in Apply(cfg, s, st).ledger && SameView(s, Apply(cfg, s, st), id)
  {
    assert forall e | EntryFrom(Apply(cfg, s, st), e, id) :: EntryFrom(s, e, id);
  }

  lemma RecordHead(cfg: Config, s: State, st: Step, id: Id)
    requires Sane(s) && Enabled(s, st) && st.Record? && id in s.ledger && OnCourse(s, id)
    requires s.todo[0].id == id && forall i | 0 <= i < |s.todo[1..]| :: s.todo[1..][i].id != id
    ensures id in Apply(cfg, s, st).ledger && OnCourse(Apply(cfg, s, st), id)
  {
    var s' := Apply(cfg, s, st);
    assert forall e | EntryFrom(s', e, id) :: EntryFrom(s, e, id);
    if s.ledger[id].lost == 0 && s.verdict.value.Failed? { AllTheSame(s.ledger[id].answers); }
  }

  /** A job that heads the list does not occur further on. */
  lemma NotNext(s: State, id: Id)
    requires Sane(s) && s.todo != []
    ensures s.todo[0].id == id ==> forall i | 0 <= i < |s.todo[1..]| :: s.todo[1..][i].id != id
  {
    assert forall i | 0 <= i < |s.todo| - 1 :: s.todo[1..][i] == s.todo[i + 1];
  }

  lemma InsertEntryOnCourse(cfg: Config, s: State, st: Step, id: Id)
    requires Sane(s) && Enabled(s, st) && st.InsertEntry? && id in s.ledger && OnCourse(s, id)
    ensures id in Apply(cfg, s, st).ledger && OnCourse(Apply(cfg, s, st), id)
  {
    var s' := Apply(cfg, s, st);
    assert forall e | EntryFrom(s', e, id) :: EntryFrom(s, e, id) || (e == st.entry && s.todo[0].id == id);
    assert JobOk(s, s.todo[0].id);
    if !st.fault && s.todo[0].id == id && s.ledger[id].lost == 0 && s.verdict.value.Failed? {
      AllTheSame(s.ledger[id].answers);
    }
  }

  lemma DeleteJobOnCourse(cfg: Config, s: State, st: Step, id: Id)
    requires Sane(s) && Enabled(s, st) && st.DeleteJob? && id in s.ledger && OnCourse(s, id)
    ensures id in Apply(cfg, s, st).ledger && OnCourse(Apply(cfg, s, st), id)
  {
    assert forall e | EntryFrom(Apply(cfg, s, st), e, id) :: EntryFrom(s, e, id);
  }

  lemma CrashOnCourse(cfg: Config, s: State, st: Step, id: Id)
    requires Sane(s) && Enabled(s, st) && st.Crash? && id in s.ledger && OnCourse(s, id)
    ensures id in Apply(cfg, s, st).ledger && OnCourse(Apply(cfg, s, st), id)
  {
    assert forall e | EntryFrom(Apply(cfg, s, st), e, id) :: EntryFrom(s, e, id);
  }

  lemma OtherOnCourse(cfg: Config, s: State, st: Step, id: Id)
    requires Sane(s) && Enabled(s, st) && id in s.ledger && OnCourse(s, id)
    requires !st.Judge? && !st.Record? && !st.InsertEntry? && !st.DeleteJob? && !st.Crash?
    ensures id in Apply(cfg, s, st).ledger && OnCourse(Apply(cfg, s, st), id)
  {
    StepGrows(cfg, s, st);
    OtherView(cfg, s, st, id);
    OnCourseCarries(s, Apply(cfg, s, st), id);
  }

  lemma OtherView(cfg: Config, s: State, st: Step, id: Id)
    requires Sane(s) && Enabled(s, st) && id in s.ledger && id in Apply(cfg, s, st).ledger
    requires !st.Judge? && !st.Record? && !st.InsertEntry? && !st.DeleteJob? && !st.Crash?
    ensures SameView(s, Apply(cfg, s, st), id)
  {
    OtherEntries(cfg, s, st, id);
  }

  lemma OtherEntries(cfg: Config, s: State, st: Step, id: Id)
    requires Enabled(s, st) && !st.InsertEntry?
    ensures forall e | EntryFrom(Apply(cfg, s, st), e, id) :: EntryFrom(s, e, id) && Apply(cfg, s, st).dead[e] == s.dead[e]
  {
  }

  lemma NoEntryYet(cfg: Config, s: State, st: Step, id: Id, e: Id)
    requires Sane(s) && Enabled(s, st) && id !in s.ledger
    ensures !EntryFrom(Apply(cfg, s, st), e, id)
  {
    assert e in s.dead ==> EntryOk(s, e, s.dead[e]);
    if st.InsertEntry? {
      assert JobOk(s, s.todo[0].id);
    } else {
      OtherEntries(cfg, s, st, id);
    }
  }

  lemma NewOnCourse(cfg: Config, s: State, st: Step, id: Id)
    requires Sane(s) && Enabled(s, st) && id !in s.ledger && id in Apply(cfg, s, st).ledger
    ensures OnCourse(Apply(cfg, s, st), id)
  {
    forall e ensures !EntryFrom(Apply(cfg, s, st), e, id) { NoEntryYet(cfg, s, st, id, e); }
    NewHistory(cfg, s, st, id);
  }

  lemma NewHistory(cfg: Config, s: State, st: Step, id: Id)
    requires Sane(s) && Enabled(s, st) && id !in s.ledger && id in Apply(cfg, s, st).ledger
    ensures var s' := Apply(cfg, s, st);
      s'.ledger[id].answers == [] && !s'.ledger[id].blocked && !Heading(s', id) && (id in s'.jobs ==> s'.jobs[id].status == Pending && s'.jobs[id].attempts == 0)
  {
    assert s.todo != [] ==> s.todo[0].id in s.jobs && JobOk(s, s.todo[0].id);
    assert id in s.jobs ==> JobOk(s, id);
    if st.Enqueue? {
    } else if st.InsertJob? {
    } else {
      EntryHistory(cfg, s, st, id);
    }
  }

  lemma EntryHistory(cfg: Config, s: State, st: Step, id: Id)
    requires Enabled(s, st) && !st.Enqueue? && !st.InsertJob? && id !in s.ledger && id !in s.jobs && id in Apply(cfg, s, st).ledger
    requires s.todo != [] ==> s.todo[0].id != id
    ensures var s' := Apply(cfg, s, st); s'.ledger[id].answers == [] && !s'.ledger[id].blocked && id !in s'.jobs && !Heading(s', id)
  {
    assert st.InsertEntry? && !st.fault;
  }

  lemma {:induction false} RunOnCourse(cfg: Config, b: seq<State>, steps: seq<Step>, i: nat, id: Id)
    requires IsService(cfg, b, steps) && i < |b| && id in b[i].ledger
    ensures Sane(b[i]) && OnCourse(b[i], id)
  {
    RunSane(cfg, b, steps, i);
    if i > 0 {
      var s, st := b[i - 1], steps[i - 1];
      RunSane(cfg, b, steps, i - 1);
      if id in s.ledger {
        RunOnCourse(cfg, b, steps, i - 1, id);
        StepOnCourse(cfg, s, st, id);
      } else {
        NewOnCourse(cfg, s, st, id);
      }
    }
  }
}
