/** q: at-least-once delivery, as safety and as recoverability. */
module QRecovery {
  import opened Common
  import opened Selection
  import opened QStore
  import opened QClassify
  import opened QProtocol

  /** A crash leaves the two tables and what was replied, and nothing that any
      worker or handler held. */
  lemma CrashForgets(cfg: Config, s: State)
    ensures Enabled(cfg, s, Crash)
    ensures var s' := Apply(cfg, s, Crash);
      && s'.rows == s.rows && s'.dlq == s.dlq && s'.replies == s.replies && s'.clock == s.clock
      && s'.lookups == [] && |s'.workers| == |s.workers| && forall w | 0 <= w < |s'.workers| :: s'.workers[w] == Worker(Starting, [])
  {
  }

  /** Once accepted, a delivery's row stays, with its payload, destination,
      key and limit; and `delivered` means that some send was answered 2xx. */
  lemma {:induction false} AcceptedIsKept(cfg: Config, workers: nat, b: seq<State>, steps: seq<Step>, i: nat, j: nat, id: Id)
    requires IsService(cfg, workers, b, steps) && i <= j < |b|
    requires id in b[i].rows
    ensures id in b[j].rows && b[j].rows[id].SameSubmission(b[i].rows[id])
    ensures id in b[j].ledger && (b[j].rows[id].status == Status.Delivered ==> b[j].ledger[id].acknowledged)
    decreases j - i
  {
    RunSane(cfg, workers, b, steps, j);
    if i < j {
      AcceptedIsKept(cfg, workers, b, steps, i, j - 1, id);
      StepKeeps(cfg, b[j - 1], steps[j - 1]);
    }
  }

  /** `acknowledged` is set by a 2xx answer to a send of this row and by nothing else. */
  lemma {:induction false} AcknowledgedMeans2xx(cfg: Config, workers: nat, b: seq<State>, steps: seq<Step>, i: nat, id: Id)
    requires IsService(cfg, workers, b, steps) && i < |b|
    requires id in b[i].ledger && b[i].ledger[id].acknowledged
    ensures exists k :: 0 <= k < i && steps[k].Send? && steps[k].id == id && steps[k].outcome.Delivered?
  {
    if i > 0 {
      var st := steps[i - 1];
      RunSane(cfg, workers, b, steps, i - 1);
      if id in b[i - 1].ledger && b[i - 1].ledger[id].acknowledged {
        AcknowledgedMeans2xx(cfg, workers, b, steps, i - 1, id);
      } else {
        assert st.Send? && st.id == id && st.outcome.Delivered?;
      }
    }
  }

  // --------------------------------------------------------------- recoverability

  /** Restart, clock, poll, claim, 2xx and their recording; no failing write. */
  predicate Recovering(st: Step) {
    match st
    case Startup(_, _) => true
    case List(_, _) => true
    case Claim(_, _, fault) => !fault
    case Send(_, _, outcome) => outcome.Delivered?
    case Record(_, _, _, fault) => !fault
    case Crash => true
    case Advance(_) => true
    case _ => false
  }

  ghost predicate DeliverableWithin(cfg: Config, s: State, id: Id, n: nat)
    decreases n
  {
    || (id in s.rows && s.rows[id].status == Status.Delivered)
    || (n > 0 && exists st :: Enabled(cfg, s, st) && Recovering(st) && DeliverableWithin(cfg, Apply(cfg, s, st), id, n - 1))
  }

  lemma Then(cfg: Config, s: State, st: Step, id: Id, n: nat)
    requires Enabled(cfg, s, st) && Recovering(st) && DeliverableWithin(cfg, Apply(cfg, s, st), id, n)
    ensures DeliverableWithin(cfg, s, id, n + 1)
  {
  }

  /** After a restart and enough time: nothing is in flight, everything pending is due. */
  ghost predicate Draining(s: State) {
    && Sane(s) && |s.workers| >= 1 && s.workers[0].phase.Ready?
    && (forall id | id in s.rows :: s.rows[id].status != InFlight)
    && (forall id | id in s.rows && s.rows[id].status == Pending :: s.rows[id].nextRetryAt <= s.clock)
    && (forall i | 0 <= i < |s.workers[0].todo| :: s.rows[s.workers[0].todo[i].id].status == Pending)
  }

  /** The decreasing measure: four steps for each pending row, less one if it is listed. */
  ghost function StepsLeft(s: State): int
    requires |s.workers| >= 1
  {
    4 * |WithStatus(s.rows, Pending)| - if s.workers[0].todo != [] then 1 else 0
  }

  ghost function HeadClaimed(cfg: Config, s: State): State
    requires Draining(s) && s.workers[0].todo != []
  {
    Apply(cfg, s, Claim(0, s.workers[0].todo[0].id, false))
  }

  lemma ClaimHead(cfg: Config, s: State)
    requires Draining(s) && s.workers[0].todo != []
    ensures var wk := s.workers[0];
      var s1 := HeadClaimed(cfg, s);
      && s1.workers == s.workers[0 := Worker(Sending(wk.todo[0]), wk.todo[1..])]
      && s1.rows == s.rows[wk.todo[0].id := s.rows[wk.todo[0].id].Claimed(s.clock)]
      && s1.clock == s.clock && Sane(s1)
  {
    assert SnapshotOk(s.rows, s.workers[0].todo[0]);
    StepSane(cfg, s, Claim(0, s.workers[0].todo[0].id, false));
  }

  lemma Chain3(cfg: Config, s: State, st1: Step, s1: State, st2: Step, s2: State, st3: Step, s3: State)
    requires Enabled(cfg, s, st1) && Recovering(st1) && s1 == Apply(cfg, s, st1)
    requires Enabled(cfg, s1, st2) && Recovering(st2) && s2 == Apply(cfg, s1, st2)
    requires Enabled(cfg, s2, st3) && Recovering(st3) && s3 == Apply(cfg, s2, st3)
    ensures forall id, n: nat | DeliverableWithin(cfg, s3, id, n) :: DeliverableWithin(cfg, s, id, n + 3)
  {
    forall id, n: nat | DeliverableWithin(cfg, s3, id, n) ensures DeliverableWithin(cfg, s, id, n + 3) {
      Then(cfg, s2, st3, id, n);
      Then(cfg, s1, st2, id, n + 1);
      Then(cfg, s, st1, id, n + 2);
    }
  }

  lemma SendAndRecord(cfg: Config, s1: State, d: Listed) returns (s2: State, s3: State)
    requires Sane(s1) && |s1.workers| >= 1 && s1.workers[0].phase == Sending(d)
    ensures Enabled(cfg, s1, Send(0, d.id, Outcome.Delivered)) && s2 == Apply(cfg, s1, Send(0, d.id, Outcome.Delivered))
    ensures Enabled(cfg, s2, Record(0, d.id, 0, false)) && s3 == Apply(cfg, s2, Record(0, d.id, 0, false))
    ensures Sane(s3) && s3.clock == s1.clock && s3.workers == s1.workers[0 := Worker(Ready, s1.workers[0].todo)]
    ensures s3.rows == AfterDelivered(s1.rows, d.id, s1.clock)
  {
    StepSane(cfg, s1, Send(0, d.id, Outcome.Delivered));
    s2 := Apply(cfg, s1, Send(0, d.id, Outcome.Delivered));
    StepSane(cfg, s2, Record(0, d.id, 0, false));
    s3 := Apply(cfg, s2, Record(0, d.id, 0, false));
  }

  lemma HeadSteps(cfg: Config, s: State, d: Listed) returns (s1: State, s2: State, s3: State)
    requires Draining(s) && s.workers[0].todo != [] && s.workers[0].todo[0] == d
    ensures Enabled(cfg, s, Claim(0, d.id, false)) && s1 == Apply(cfg, s, Claim(0, d.id, false))
    ensures Enabled(cfg, s1, Send(0, d.id, Outcome.Delivered)) && s2 == Apply(cfg, s1, Send(0, d.id, Outcome.Delivered))
    ensures Enabled(cfg, s2, Record(0, d.id, 0, false)) && s3 == Apply(cfg, s2, Record(0, d.id, 0, false))
    ensures Sane(s3) && s3.clock == s.clock && s3.workers == s.workers[0 := Worker(Ready, s.workers[0].todo[1..])]
    ensures d.id in s.rows && s3.rows == s.rows[d.id := s.rows[d.id].Claimed(s.clock).Acknowledged(s.clock)]
  {
    assert SnapshotOk(s.rows, d);
    ClaimHead(cfg, s);
    s1 := HeadClaimed(cfg, s);
    s2, s3 := SendAndRecord(cfg, s1, d);
    Twice(s.workers, Worker(Sending(d), s.workers[0].todo[1..]), Worker(Ready, s.workers[0].todo[1..]));
    ClaimedThenDelivered(s.rows, d.id, s.clock);
  }

  lemma Twice<T>(s: seq<T>, x: T, y: T)
    requires s != []
    ensures s[0 := x][0 := y] == s[0 := y]
  {
  }

  lemma ClaimedThenDelivered(rows: Rows, id: Id, now: int)
    requires id in rows
    ensures AfterDelivered(rows[id := rows[id].Claimed(now)], id, now) == rows[id := rows[id].Claimed(now).Acknowledged(now)]
  {
  }

  /** Claim, send, record: the listed row at the head is delivered and nothing else changes. */
  lemma DeliverHead(cfg: Config, s: State) returns (s3: State)
    requires Draining(s) && s.workers[0].todo != []
    ensures var head := s.workers[0].todo[0].id;
      && Draining(s3) && s3.workers[0].todo == s.workers[0].todo[1..]
      && head in s.rows && s3.rows == s.rows[head := s.rows[head].Claimed(s.clock).Acknowledged(s.clock)]
    ensures forall id, n: nat | DeliverableWithin(cfg, s3, id, n) :: DeliverableWithin(cfg, s, id, n + 3)
  {
    var d := s.workers[0].todo[0];
    var s1, s2;
    s1, s2, s3 := HeadSteps(cfg, s, d);
    HeadDelivered(s, s3);
    Chain3(cfg, s, Claim(0, d.id, false), s1, Send(0, d.id, Outcome.Delivered), s2, Record(0, d.id, 0, false), s3);
  }

  lemma HeadDelivered(s: State, s3: State)
    requires Draining(s) && s.workers[0].todo != [] && Sane(s3) && s3.clock == s.clock
    requires var wk := s.workers[0]; wk.todo[0].id in s.rows
    requires var wk := s.workers[0];
      && s3.workers == s.workers[0 := Worker(Ready, wk.todo[1..])]
      && s3.rows == s.rows[wk.todo[0].id := s.rows[wk.todo[0].id].Claimed(s.clock).Acknowledged(s.clock)]
    ensures Draining(s3)
  {
    var todo := s.workers[0].todo;
    assert WorkerOk(s.rows, s.workers[0]);
    forall i | 0 <= i < |todo[1..]| ensures s3.rows[todo[1..][i].id].status == Pending {
      assert todo[1..][i] == todo[i + 1];
    }
  }

  lemma ListAll(cfg: Config, s: State) returns (batch: seq<Id>, s': State)
    requires Draining(s) && s.workers[0].todo == [] && WithStatus(s.rows, Pending) != {} && cfg.limit >= 1
    ensures Enabled(cfg, s, List(0, batch)) && s' == Apply(cfg, s, List(0, batch))
    ensures Draining(s') && s'.rows == s.rows && s'.workers[0].todo != [] && StepsLeft(s') == StepsLeft(s) - 1 >= 0
  {
    var due := DueTimes(s.rows, s.clock);
    batch := OldestExists(due, cfg.limit);
    assert |batch| >= 1 by {
      var id := Pick(WithStatus(s.rows, Pending));
      assert id in due;
      assert due.Keys != {};
    }
    StepSane(cfg, s, List(0, batch));
    s' := Apply(cfg, s, List(0, batch));
    assert s'.workers[0].todo == Listing(s.rows, batch);
  }

  /** Delivering the head lowers the measure by at least the three steps it takes. */
  lemma HeadCounts(s: State, s3: State)
    requires |s.workers| >= 1 && s.workers[0].todo != [] && |s3.workers| >= 1
    requires var head := s.workers[0].todo[0].id;
      && head in s.rows && s.rows[head].status == Pending
      && s3.rows == s.rows[head := s.rows[head].Claimed(s.clock).Acknowledged(s.clock)]
    ensures StepsLeft(s3) + 3 <= StepsLeft(s) && StepsLeft(s) >= 3
  {
    var head := s.workers[0].todo[0].id;
    assert head in WithStatus(s.rows, Pending);
    assert WithStatus(s3.rows, Pending) == WithStatus(s.rows, Pending) - {head};
  }

  lemma DeliverOne(cfg: Config, s: State, id: Id, n: nat) returns (s3: State)
    requires Draining(s) && s.workers[0].todo != [] && n >= StepsLeft(s)
    ensures var head := s.workers[0].todo[0].id;
      && Draining(s3) && head in s3.rows && s3.rows[head].status == Status.Delivered
      && (id in s.rows && id != head ==> id in s3.rows && s3.rows[id] == s.rows[id])
    ensures n >= 3 && n - 3 >= StepsLeft(s3)
    ensures DeliverableWithin(cfg, s3, id, n - 3) ==> DeliverableWithin(cfg, s, id, n)
  {
    assert SnapshotOk(s.rows, s.workers[0].todo[0]);
    s3 := DeliverHead(cfg, s);
    HeadCounts(s, s3);
  }

  lemma ListThen(cfg: Config, s: State, id: Id, n: nat) returns (s': State)
    requires Draining(s) && cfg.limit >= 1 && id in s.rows && s.rows[id].status == Pending && n >= StepsLeft(s) && s.workers[0].todo == []
    ensures Draining(s') && s'.rows == s.rows && n >= 1 && n - 1 >= StepsLeft(s')
    ensures DeliverableWithin(cfg, s', id, n - 1) ==> DeliverableWithin(cfg, s, id, n)
  {
    assert id in WithStatus(s.rows, Pending);
    var batch;
    batch, s' := ListAll(cfg, s);
    if DeliverableWithin(cfg, s', id, n - 1) { Then(cfg, s, List(0, batch), id, n - 1); }
  }

  lemma {:induction false} Drain(cfg: Config, s: State, id: Id, n: nat)
    requires Draining(s) && cfg.limit >= 1 && id in s.rows && s.rows[id].status == Pending && n >= StepsLeft(s)
    ensures DeliverableWithin(cfg, s, id, n)
    decreases n
  {
    if s.workers[0].todo == [] {
      var s' := ListThen(cfg, s, id, n);
      Drain(cfg, s', id, n - 1);
    } else {
      var s3 := DeliverOne(cfg, s, id, n);
      if id != s.workers[0].todo[0].id {
        Drain(cfg, s3, id, n - 3);
      } else {
        DeliveredNow(cfg, s3, id, n - 3);
      }
    }
  }

  lemma DeliveredNow(cfg: Config, s: State, id: Id, n: nat)
    requires id in s.rows && s.rows[id].status == Status.Delivered
    ensures DeliverableWithin(cfg, s, id, n)
  {
  }

  lemma LateEnough(rows: Rows, staleMs: int, clock: int) returns (t: int)
    ensures t >= clock
    ensures forall id | id in rows :: rows[id].nextRetryAt <= t && rows[id].updatedAt + staleMs <= t
  {
    var due, stale := map id | id in rows :: rows[id].nextRetryAt, map id | id in rows :: rows[id].updatedAt + staleMs;
    t := UpperBound(due, clock);
    t := UpperBound(stale, t);
    assert forall id | id in rows :: due[id] <= t && stale[id] <= t;
  }

  /** Crash, wait until everything is due and stale, start the first worker. */
  lemma Restart(cfg: Config, s: State) returns (s3: State)
    requires Sane(s) && |s.workers| >= 1
    ensures Draining(s3) && s3.workers[0].todo == []
    ensures WithStatus(s3.rows, Pending) == WithStatus(s.rows, Pending) + WithStatus(s.rows, InFlight)
    ensures forall id, n: nat | DeliverableWithin(cfg, s3, id, n) :: DeliverableWithin(cfg, s, id, n + 3)
  {
    StepSane(cfg, s, Crash);
    var s1 := Apply(cfg, s, Crash);
    assert s1.rows == s.rows && s1.clock == s.clock;
    var t := LateEnough(s.rows, cfg.staleMs, s.clock);
    StepSane(cfg, s1, Advance(t));
    var s2 := Apply(cfg, s1, Advance(t));
    var up := Startup(0, StaleIds(s2.rows, s2.clock, cfg.staleMs));
    s3 := FirstStart(cfg, s2);
    forall id, n: nat | DeliverableWithin(cfg, s3, id, n) ensures DeliverableWithin(cfg, s, id, n + 3) {
      Then(cfg, s2, up, id, n);
      Then(cfg, s1, Advance(t), id, n + 1);
      Then(cfg, s, Crash, id, n + 2);
    }
  }

  lemma FirstStart(cfg: Config, s: State) returns (s': State)
    requires Sane(s) && |s.workers| >= 1 && s.workers[0].phase.Starting?
    requires forall id | id in s.rows :: s.rows[id].nextRetryAt <= s.clock && s.rows[id].updatedAt + cfg.staleMs <= s.clock
    ensures var up := Startup(0, StaleIds(s.rows, s.clock, cfg.staleMs));
      Enabled(cfg, s, up) && s' == Apply(cfg, s, up)
    ensures Draining(s') && s'.workers[0].todo == []
    ensures WithStatus(s'.rows, Pending) == WithStatus(s.rows, Pending) + WithStatus(s.rows, InFlight)
  {
    var up := Startup(0, StaleIds(s.rows, s.clock, cfg.staleMs));
    StepSane(cfg, s, up);
    s' := Apply(cfg, s, up);
  }

  /** From every reachable state, whatever crashed or was lost on the way, a
      delivery that is not terminal can still be delivered: within three steps
      of restart and four for each row that is not terminal. */
  lemma AlwaysRecoverable(cfg: Config, workers: nat, b: seq<State>, steps: seq<Step>, i: nat, id: Id)
    requires IsService(cfg, workers, b, steps) && i < |b| && workers >= 1 && cfg.limit >= 1
    requires id in b[i].rows && !b[i].rows[id].Terminal()
    ensures DeliverableWithin(cfg, b[i], id, 3 + 4 * |WithStatus(b[i].rows, Pending) + WithStatus(b[i].rows, InFlight)|)
  {
    RunSane(cfg, workers, b, steps, i);
    var s := Restart(cfg, b[i]);
    assert id in WithStatus(s.rows, Pending);
    Drain(cfg, s, id, StepsLeft(s));
  }
}
