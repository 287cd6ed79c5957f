/** k: which jobs can still be delivered. */
module KRecovery {
  import opened Common
  import opened Selection
  import opened KProtocol

  /** No crash and no failing write: what the service does when all goes well,
      and the operator's requeue. */
  predicate Favourable(st: Step) {
    && !st.Insert? && !st.Die? && !st.Crash?
    && (st.Claim? ==> !st.fault) && (st.Record? ==> !st.fault) && (st.Deliver? ==> st.result.Ok?)
  }

  ghost predicate FavourableRun(cfg: Config, b: seq<State>, steps: seq<Step>) {
    IsRun(cfg, b, steps) && forall i | 0 <= i < |steps| :: Favourable(steps[i])
  }

  lemma Go(cfg: Config, b: seq<State>, steps: seq<Step>, st: Step) returns (b': seq<State>, steps': seq<Step>)
    requires FavourableRun(cfg, b, steps) && Enabled(cfg, b[|b| - 1], st) && Favourable(st)
    ensures FavourableRun(cfg, b', steps') && b'[0] == b[0] && b'[|b'| - 1] == Apply(cfg, b[|b| - 1], st)
  {
    b', steps' := Append(cfg, b, steps, st);
  }

  ghost predicate Waiting(s: State, id: Id) {
    id in s.jobs && s.jobs[id].status == Pending && Owned(s, id)
  }

  ghost predicate DeliveredIn(s: State, id: Id) {
    id in s.jobs && s.jobs[id].status == Delivered
  }

  // -------------------------------------------------------- a worker's next job

  /** Deliver (unless that was done) and record: the worker's first job leaves it. */
  lemma EndFirst(cfg: Config, b0: seq<State>, steps0: seq<Step>, w: nat) returns (b: seq<State>, steps: seq<Step>)
    requires FavourableRun(cfg, b0, steps0)
    requires var s := b0[|b0| - 1]; w < |s.workers| && s.workers[w].batch != []
    ensures FavourableRun(cfg, b, steps) && b[0] == b0[0]
    ensures var s, s' := b0[|b0| - 1], b[|b| - 1];
      var wk := s.workers[w];
      var result := if wk.answer.Some? then wk.answer.value else Ok;
      && s'.workers == s.workers[w := Worker(wk.batch[1..], None)] && s'.clock == s.clock
      && s'.jobs == RecordedJobs(cfg, s.jobs, wk.batch[0], result, 0.0, s.clock)
  {
    b, steps := b0, steps0;
    var s := b0[|b0| - 1];
    var id := s.workers[w].batch[0].id;
    if s.workers[w].answer == None {
      b, steps := Go(cfg, b, steps, Deliver(w, id, Ok));
    }
    b, steps := Go(cfg, b, steps, Record(w, id, 0.0, false));
  }

  /** That changes no other job. */
  lemma OthersStay(cfg: Config, jobs: Jobs, h: Held, result: Result, now: int, id: Id)
    requires id in jobs && h.id != id
    ensures id in RecordedJobs(cfg, jobs, h, result, 0.0, now) && RecordedJobs(cfg, jobs, h, result, 0.0, now)[id] == jobs[id]
  {
  }

  /** Ownership after the worker's first job has left it. */
  lemma EndedOwned(s: State, s': State, w: nat, id: Id)
    requires Owned(s, id) && w < |s.workers| && s.workers[w].batch != []
    requires s'.workers == s.workers[w := Worker(s.workers[w].batch[1..], None)]
    requires s.workers[w].batch[0].id != id && id in s.jobs ==> id in s'.jobs && s'.jobs[id] == s.jobs[id]
    ensures Owned(s', id)
    ensures forall i: nat | HeldAt(s, w, i + 1, id) :: HeldAt(s', w, i, id)
  {
    assert s.workers[w].batch[0].id == id ==> HeldAt(s, w, 0, id);
    forall v, i | HeldAt(s', v, i, id) ensures HeldAt(s, v, if v == w then i + 1 else i, id) && CopyOk(s'.jobs, s'.workers[v].batch[i]) {
      if v == w { assert s'.workers[w].batch[i] == s.workers[w].batch[i + 1]; }
      assert HeldAt(s, v, if v == w then i + 1 else i, id);
    }
  }

  // ------------------------------------------------------------------ a held job

  /** A job that a worker has still to send is delivered when its turn comes. */
  lemma {:induction false} DeliverHeld(cfg: Config, b0: seq<State>, steps0: seq<Step>, w: nat, i: nat, id: Id) returns (b: seq<State>, steps: seq<Step>)
    requires FavourableRun(cfg, b0, steps0)
    requires var s := b0[|b0| - 1]; HeldAt(s, w, i, id) && Owned(s, id) && (i > 0 || s.workers[w].answer == None || s.workers[w].answer == Some(Ok))
    ensures FavourableRun(cfg, b, steps) && b[0] == b0[0] && DeliveredIn(b[|b| - 1], id)
    decreases i
  {
    var s := b0[|b0| - 1];
    b, steps := EndFirst(cfg, b0, steps0, w);
    if i > 0 {
      assert !HeldAt(s, w, 0, id);
      OthersStay(cfg, s.jobs, s.workers[w].batch[0], if s.workers[w].answer.Some? then s.workers[w].answer.value else Ok, s.clock, id);
      EndedOwned(s, b[|b| - 1], w, id);
      assert HeldAt(s, w, (i - 1) + 1, id);
      b, steps := DeliverHeld(cfg, b, steps, w, i - 1, id);
    } else {
      assert CopyOk(s.jobs, s.workers[w].batch[0]);
    }
  }

  // --------------------------------------------------------------- a pending job

  /** Worker `w` finishes what it holds. */
  lemma {:induction false} Finish(cfg: Config, b0: seq<State>, steps0: seq<Step>, w: nat, id: Id) returns (b: seq<State>, steps: seq<Step>)
    requires FavourableRun(cfg, b0, steps0)
    requires var s := b0[|b0| - 1]; w < |s.workers| && Waiting(s, id)
    ensures FavourableRun(cfg, b, steps) && b[0] == b0[0]
    ensures var s, s' := b0[|b0| - 1], b[|b| - 1];
      && |s'.workers| == |s.workers| && s'.workers[w].batch == [] && s'.clock == s.clock && Waiting(s', id) && s'.jobs[id] == s.jobs[id]
      && (s.workers[w].answer == None ==> s'.workers[w].answer == None && OnlyDelivers(s.jobs, s'.jobs))
      && (s.workers[w].batch != [] ==> s'.workers[w].answer == None)
    decreases |b0[|b0| - 1].workers[w].batch|
  {
    var s := b0[|b0| - 1];
    if s.workers[w].batch == [] {
      b, steps := b0, steps0;
    } else {
      b, steps := EndFirst(cfg, b0, steps0, w);
      var s1 := b[|b| - 1];
      assert HeldAt(s, w, 0, s.workers[w].batch[0].id);
      OthersStay(cfg, s.jobs, s.workers[w].batch[0], if s.workers[w].answer.Some? then s.workers[w].answer.value else Ok, s.clock, id);
      EndedOwned(s, s1, w, id);
      b, steps := Finish(cfg, b, steps, w, id);
    }
  }

  /** Jobs may become delivered; no other row changes. */
  ghost predicate OnlyDelivers(jobs: Jobs, jobs': Jobs) {
    && jobs'.Keys == jobs.Keys
    && forall id | id in jobs :: jobs'[id] == jobs[id] || jobs'[id].status == Delivered
  }

  /** The pending jobs due no later than this one. */
  ghost function Rank(jobs: Jobs, id: Id): set<Id>
    requires id in jobs
  {
    set j | j in jobs && jobs[j].status == Pending && jobs[j].dueAt <= jobs[id].dueAt
  }

  lemma RankShrinks(jobs: Jobs, jobs': Jobs, id: Id)
    requires OnlyDelivers(jobs, jobs') && id in jobs && jobs'[id] == jobs[id]
    ensures |Rank(jobs', id)| <= |Rank(jobs, id)|
  {
    SubsetSize(Rank(jobs', id), Rank(jobs, id));
  }

  /** An idle worker claims: the job, or a batch from ahead of it. */
  lemma ClaimSome(cfg: Config, b0: seq<State>, steps0: seq<Step>, w: nat, id: Id) returns (b: seq<State>, steps: seq<Step>, batch: seq<Id>)
    requires FavourableRun(cfg, b0, steps0) && cfg.limit >= 1
    requires var s := b0[|b0| - 1]; w < |s.workers| && s.workers[w] == IDLE && Waiting(s, id) && s.jobs[id].dueAt <= s.clock
    ensures FavourableRun(cfg, b, steps) && b[0] == b0[0]
    ensures var s, s' := b0[|b0| - 1], b[|b| - 1];
      && Enabled(cfg, s, Claim(w, batch, false)) && s' == Apply(cfg, s, Claim(w, batch, false)) && Owned(s', id)
  {
    var s := b0[|b0| - 1];
    batch := OldestExists(DueTimes(s.jobs, s.clock), cfg.limit);
    StepOwned(cfg, s, Claim(w, batch, false), id);
    b, steps := Go(cfg, b0, steps0, Claim(w, batch, false));
  }

  lemma Passed(cfg: Config, s: State, w: nat, batch: seq<Id>, id: Id)
    requires Enabled(cfg, s, Claim(w, batch, false)) && cfg.limit >= 1 && id in s.jobs && s.jobs[id].status == Pending && s.jobs[id].dueAt <= s.clock
    requires id !in batch
    ensures var jobs := AfterClaim(s.jobs, batch, s.clock);
      id in jobs && jobs[id] == s.jobs[id] && |Rank(jobs, id)| < |Rank(s.jobs, id)|
  {
    var due := DueTimes(s.jobs, s.clock);
    LeftOutMeansFull(due, cfg.limit, batch, id);
    var jobs, first := AfterClaim(s.jobs, batch, s.clock), batch[0];
    assert first in due && first in Rank(s.jobs, id) && first !in Rank(jobs, id);
    SubsetSize(Rank(jobs, id), Rank(s.jobs, id) - {first});
  }

  lemma {:induction false} DeliverDue(cfg: Config, b0: seq<State>, steps0: seq<Step>, w: nat, id: Id) returns (b: seq<State>, steps: seq<Step>)
    requires FavourableRun(cfg, b0, steps0) && cfg.limit >= 1
    requires var s := b0[|b0| - 1]; w < |s.workers| && s.workers[w] == IDLE && Waiting(s, id) && s.jobs[id].dueAt <= s.clock
    ensures FavourableRun(cfg, b, steps) && b[0] == b0[0] && DeliveredIn(b[|b| - 1], id)
    decreases |Rank(b0[|b0| - 1].jobs, id)|
  {
    var s := b0[|b0| - 1];
    var batch;
    b, steps, batch := ClaimSome(cfg, b0, steps0, w, id);
    var s1 := b[|b| - 1];
    if id in batch {
      var i :| 0 <= i < |batch| && batch[i] == id;
      assert HeldAt(s1, w, i, id);
      b, steps := DeliverHeld(cfg, b, steps, w, i, id);
    } else {
      Passed(cfg, s, w, batch, id);
      b, steps := Finish(cfg, b, steps, w, id);
      RankShrinks(s1.jobs, b[|b| - 1].jobs, id);
      b, steps := DeliverDue(cfg, b, steps, w, id);
    }
  }

  lemma DeliverPending(cfg: Config, b0: seq<State>, steps0: seq<Step>, id: Id) returns (b: seq<State>, steps: seq<Step>)
    requires FavourableRun(cfg, b0, steps0) && cfg.limit >= 1
    requires var s := b0[|b0| - 1]; |s.workers| >= 1 && Waiting(s, id) && Settled(s)
    ensures FavourableRun(cfg, b, steps) && b[0] == b0[0] && DeliveredIn(b[|b| - 1], id)
  {
    b, steps := Finish(cfg, b0, steps0, 0, id);
    var s := b[|b| - 1];
    b, steps := Go(cfg, b, steps, Advance(Max(s.clock, s.jobs[id].dueAt)));
    b, steps := DeliverDue(cfg, b, steps, 0, id);
  }

  /** An answer belongs to a job in hand. */
  ghost predicate Settled(s: State) {
    forall w | 0 <= w < |s.workers| :: s.workers[w].batch == [] ==> s.workers[w].answer == None
  }

  lemma {:induction false} RunSettled(cfg: Config, workers: nat, b: seq<State>, steps: seq<Step>, i: nat)
    requires IsService(cfg, workers, b, steps) && i < |b|
    ensures Settled(b[i]) && |b[i].workers| == workers
  {
    if i > 0 {
      RunSettled(cfg, workers, b, steps, i - 1);
      StepSettled(cfg, b[i - 1], steps[i - 1]);
    }
  }

  lemma StepSettled(cfg: Config, s: State, st: Step)
    requires Enabled(cfg, s, st) && Settled(s)
    ensures Settled(Apply(cfg, s, st)) && |Apply(cfg, s, st).workers| == |s.workers|
  {
  }

  // ------------------------------------------------------------------- every job

  /** In flight, and no worker knows of it. */
  ghost predicate Orphaned(s: State, id: Id) {
    id in s.jobs && s.jobs[id].status == InFlight && !IsHeld(s, id)
  }

  lemma DeliverAny(cfg: Config, s: State, id: Id) returns (b: seq<State>, steps: seq<Step>)
    requires cfg.limit >= 1 && |s.workers| >= 1 && Owned(s, id) && Settled(s) && id in s.jobs && !Orphaned(s, id)
    ensures FavourableRun(cfg, b, steps) && b[0] == s && DeliveredIn(b[|b| - 1], id)
  {
    b, steps := [s], [];
    match s.jobs[id].status
    case Delivered =>
    case Pending =>
      b, steps := DeliverPending(cfg, b, steps, id);
    case Dead =>
      b, steps := Revive(cfg, b, steps, id);
    case InFlight =>
      var w, i :| HeldAt(s, w, i, id);
      if i == 0 && s.workers[w].answer.Some? && s.workers[w].answer.value.Failed? {
        b, steps := EndFailed(cfg, s, w, id);
        var s1 := b[|b| - 1];
        if s1.jobs[id].status == Dead {
          b, steps := Revive(cfg, b, steps, id);
        } else {
          b, steps := DeliverPending(cfg, b, steps, id);
        }
      } else {
        b, steps := DeliverHeld(cfg, b, steps, w, i, id);
      }
  }

  /** A failure that is already known is recorded first. */
  lemma EndFailed(cfg: Config, s: State, w: nat, id: Id) returns (b: seq<State>, steps: seq<Step>)
    requires |s.workers| >= 1 && Owned(s, id) && Settled(s) && HeldAt(s, w, 0, id) && s.workers[w].answer.Some? && s.workers[w].answer.value.Failed?
    ensures FavourableRun(cfg, b, steps) && b[0] == s
    ensures var s' := b[|b| - 1];
      && |s'.workers| == |s.workers| && Owned(s', id) && Settled(s')
      && id in s'.jobs && (s'.jobs[id].status == Dead || s'.jobs[id].status == Pending)
  {
    b, steps := EndFirst(cfg, [s], [], w);
    var s' := b[|b| - 1];
    assert CopyOk(s.jobs, s.workers[w].batch[0]);
    EndedOwned(s, s', w, id);
  }

  lemma Revive(cfg: Config, b0: seq<State>, steps0: seq<Step>, id: Id) returns (b: seq<State>, steps: seq<Step>)
    requires FavourableRun(cfg, b0, steps0) && cfg.limit >= 1
    requires var s := b0[|b0| - 1]; |s.workers| >= 1 && Owned(s, id) && Settled(s) && id in s.jobs && s.jobs[id].status == Dead
    ensures FavourableRun(cfg, b, steps) && b[0] == b0[0] && DeliveredIn(b[|b| - 1], id)
  {
    var s := b0[|b0| - 1];
    StepOwned(cfg, s, Requeue(id), id);
    b, steps := Go(cfg, b0, steps0, Requeue(id));
    b, steps := DeliverPending(cfg, b, steps, id);
  }

  /** Some continuation of the run, favourable or not, delivers the job. */
  ghost predicate CanBeDelivered(cfg: Config, s: State, id: Id) {
    exists c: seq<State>, more: seq<Step> :: Delivers(cfg, c, more, s, id)
  }

  ghost predicate Delivers(cfg: Config, c: seq<State>, more: seq<Step>, s: State, id: Id) {
    IsRun(cfg, c, more) && c[0] == s && DeliveredIn(c[|c| - 1], id)
  }

  /** From every reachable state an accepted job can still be delivered exactly
      when it is not in flight without a holder. A favourable continuation is
      enough when it can, and no continuation at all helps when it cannot. */
  lemma DeliverableIff(cfg: Config, workers: nat, b: seq<State>, steps: seq<Step>, i: nat, id: Id)
    requires IsService(cfg, workers, b, steps) && i < |b| && cfg.limit >= 1 && workers >= 1 && id in b[i].jobs
    ensures CanBeDelivered(cfg, b[i], id) <==> !Orphaned(b[i], id)
  {
    RunOwned(cfg, workers, b, steps, i, id);
    RunSettled(cfg, workers, b, steps, i);
    if Orphaned(b[i], id) {
      forall c: seq<State>, more: seq<Step> | IsRun(cfg, c, more) && c[0] == b[i] ensures !Delivers(cfg, c, more, b[i], id) {
        OrphanedRun(cfg, c, more, |c| - 1, id);
      }
    } else {
      var c, more := DeliverAny(cfg, b[i], id);
      assert Delivers(cfg, c, more, b[i], id);
    }
  }

  lemma {:induction false} OrphanedRun(cfg: Config, c: seq<State>, more: seq<Step>, j: nat, id: Id)
    requires IsRun(cfg, c, more) && j < |c| && Orphaned(c[0], id) && Owned(c[0], id)
    ensures Orphaned(c[j], id) && Owned(c[j], id) && c[j].jobs[id] == c[0].jobs[id]
  {
    if j > 0 {
      OrphanedRun(cfg, c, more, j - 1, id);
      StepOwned(cfg, c[j - 1], more[j - 1], id);
      NotHeldUnchanged(cfg, c[j - 1], more[j - 1], id);
    }
  }
}
