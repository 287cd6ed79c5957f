/** g: which delivered rows some continuation still takes back. */
module GOverwrite {
  import opened Common
  import opened GProtocol
  import GLeases
  import GRecovery

  ghost predicate DeliveredIn(s: State, id: Id) {
    id in s.rows && s.rows[id].status == Delivered
  }

  /** A task of the row that has not got a 2xx, or a requeue that has passed its check. */
  ghost predicate Threatened(s: State, id: Id) {
    || (exists t :: GLeases.HasTask(s, t, id) && s.tasks[t].result != Some(Ok))
    || (exists q :: GLeases.HasRequeue(s, q, id))
  }

  ghost predicate TakesBack(cfg: Config, c: seq<State>, more: seq<Step>, s: State, id: Id) {
    IsRun(cfg, c, more) && c[0] == s && !DeliveredIn(c[|c| - 1], id)
  }

  ghost predicate Overwritable(cfg: Config, s: State, id: Id) {
    exists c: seq<State>, more: seq<Step> :: TakesBack(cfg, c, more, s, id)
  }

  // ------------------------------------------------------------- what threatens it

  /** A live task of the row fails and records that. */
  lemma TaskTakesBack(cfg: Config, s: State, t: nat, id: Id)
    requires DeliveredIn(s, id) && GLeases.HasTask(s, t, id) && s.tasks[t].result != Some(Ok)
    ensures Overwritable(cfg, s, id)
  {
    var c: seq<State>, more: seq<Step> := [s], [];
    if s.tasks[t].startedAt == None { c, more := Append(cfg, c, more, Begin(t)); }
    if c[|c| - 1].tasks[t].result == None { c, more := Append(cfg, c, more, Respond(t, Failed("timeout"))); }
    var draw := GRecovery.EnabledDraw(cfg, c[|c| - 1], t);
    FailureTakesBack(cfg, c[|c| - 1], t, draw, id);
    c, more := Append(cfg, c, more, Finalize(t, draw, false));
    assert TakesBack(cfg, c, more, s, id);
  }

  lemma FailureTakesBack(cfg: Config, s: State, t: nat, draw: real, id: Id)
    requires DeliveredIn(s, id) && GLeases.HasTask(s, t, id) && s.tasks[t].result.Some? && s.tasks[t].result.value.Failed?
    requires Enabled(cfg, s, Finalize(t, draw, false))
    ensures !DeliveredIn(Apply(cfg, s, Finalize(t, draw, false)), id)
  {
  }

  lemma RequeueTakesBack(cfg: Config, s: State, q: nat, id: Id)
    requires DeliveredIn(s, id) && GLeases.HasRequeue(s, q, id)
    ensures Overwritable(cfg, s, id)
  {
    var c, more := Append(cfg, [s], [], RequeueWrite(q, false));
    assert TakesBack(cfg, c, more, s, id);
  }

  // --------------------------------------------------------------- nothing else does

  ghost predicate Settled(s: State, id: Id) {
    DeliveredIn(s, id) && !Threatened(s, id)
  }

  lemma SettledTask(s: State, t: nat, id: Id)
    requires Settled(s, id) && GLeases.HasTask(s, t, id)
    ensures s.tasks[t].result == Some(Ok)
  {
  }

  /** No step makes a settled row anything but settled. */
  lemma StepSettled(cfg: Config, s: State, st: Step, id: Id)
    requires Settled(s, id) && Enabled(cfg, s, st)
    ensures Settled(Apply(cfg, s, st), id)
  {
    RowSettled(cfg, s, st, id);
    var s' := Apply(cfg, s, st);
    forall t | GLeases.HasTask(s', t, id) ensures s'.tasks[t].result == Some(Ok) { TaskSettled(cfg, s, st, t, id); }
    forall q ensures !GLeases.HasRequeue(s', q, id) { assert !GLeases.HasRequeue(s, q, id); }
  }

  lemma RowSettled(cfg: Config, s: State, st: Step, id: Id)
    requires Settled(s, id) && Enabled(cfg, s, st)
    ensures DeliveredIn(Apply(cfg, s, st), id)
  {
    if st.Claim? && id in st.batch {
      GLeases.ClaimPicksPending(cfg, s, st, id);
    } else if st.Finalize? && s.tasks[st.t].id == id {
      SettledTask(s, st.t, id);
    } else if st.RequeueWrite? {
      assert !GLeases.HasRequeue(s, st.q, id);
    }
  }

  lemma TaskSettled(cfg: Config, s: State, st: Step, t: nat, id: Id)
    requires Settled(s, id) && Enabled(cfg, s, st) && GLeases.HasTask(Apply(cfg, s, st), t, id)
    ensures Apply(cfg, s, st).tasks[t].result == Some(Ok)
  {
    if st.Claim? && !st.fault && Numbered(t, s.nextTask, |st.batch|) {
      GLeases.ClaimPicksPending(cfg, s, st, id);
    } else {
      SettledTask(s, t, id);
    }
  }

  lemma {:induction false} RunSettled(cfg: Config, c: seq<State>, more: seq<Step>, id: Id, i: nat)
    requires IsRun(cfg, c, more) && i < |c| && Settled(c[0], id)
    ensures Settled(c[i], id)
  {
    if i > 0 {
      RunSettled(cfg, c, more, id, i - 1);
      StepSettled(cfg, c[i - 1], more[i - 1], id);
    }
  }

  /** From any state of any run a delivered row can be taken back, by some
      continuation of any length, exactly when a live task of it has not got a
      2xx or a requeue of it is between its two statements. */
  lemma OverwritableIff(cfg: Config, s: State, id: Id)
    requires DeliveredIn(s, id)
    ensures Overwritable(cfg, s, id) <==> Threatened(s, id)
  {
    if t :| GLeases.HasTask(s, t, id) && s.tasks[t].result != Some(Ok) {
      TaskTakesBack(cfg, s, t, id);
    } else if q :| GLeases.HasRequeue(s, q, id) {
      RequeueTakesBack(cfg, s, q, id);
    } else if Overwritable(cfg, s, id) {
      var c: seq<State>, more: seq<Step> :| TakesBack(cfg, c, more, s, id);
      RunSettled(cfg, c, more, id, |c| - 1);
    }
  }
}
