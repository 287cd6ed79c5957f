/** q's worker as it is written, and that what it does is a run of the protocol. */
module QWorker {
  import opened Common
  import opened Selection
  import opened QStore
  import opened QClassify
  import opened QProtocol
  import Backoff

  /** What the world does while one row is processed. */
  datatype Env = Env(
    refusal: Option<string>,  // validation error, if any
    claimAt: int, claimFault: bool,
    outcome: Outcome,
    draw: Backoff.u64, recordAt: int, recordFault: bool)

  datatype Tables = Tables(rows: Rows, dlq: seq<DlqEntry>)

  ghost function Processed(cfg: Config, t: Tables, d: Listed, env: Env): Tables {
    if env.refusal.Some? then
      if env.claimFault then t
      else Tables(AfterBurial(t.rows, d.id, env.refusal.value, env.claimAt), DlqAfterBurial(t.rows, t.dlq, d.id, env.refusal.value, env.claimAt))
    else if env.claimFault || !Claimable(t.rows, d.id) then t
    else
      var claimed := AfterClaim(t.rows, d.id, env.claimAt);
      if env.recordFault then Tables(claimed, t.dlq)
      else Tables(RecordedRows(cfg, claimed, d, env.outcome, env.draw, env.recordAt), RecordedDlq(claimed, t.dlq, d, env.outcome, env.recordAt))
  }

  ghost function ProcessedAll(cfg: Config, t: Tables, todo: seq<Listed>, envs: seq<Env>): Tables
    requires |envs| == |todo|
  {
    if todo == [] then t
    else
      var n := |todo| - 1;
      Processed(cfg, ProcessedAll(cfg, t, todo[..n], envs[..n]), todo[n], envs[n])
  }

  lemma ProcessedNext(cfg: Config, t: Tables, todo: seq<Listed>, envs: seq<Env>, i: nat)
    requires |envs| == |todo| && i < |todo|
    ensures ProcessedAll(cfg, t, todo[..i + 1], envs[..i + 1]) == Processed(cfg, ProcessedAll(cfg, t, todo[..i], envs[..i]), todo[i], envs[i])
  {
    assert todo[..i + 1][..i] == todo[..i] && envs[..i + 1][..i] == envs[..i];
  }

  /** The row after one that is turned away, or whose claim fails or is lost. */
  lemma NotSent(cfg: Config, t: Tables, d: Listed, env: Env)
    requires env.refusal.Some? || env.claimFault || d.id !in t.rows || t.rows[d.id].status != Pending
    ensures var t' := Processed(cfg, t, d, env);
      if env.refusal.Some? && !env.claimFault && d.id in t.rows then
        var r := t.rows[d.id];
        && t'.rows == t.rows[d.id := r.(status := DeadLetter, lastError := env.refusal, updatedAt := env.claimAt)]
        && t'.dlq == t.dlq + [DlqEntry(d.id, r.destination, r.payload, r.attempts, env.refusal.value, env.claimAt)]
      else
        t' == t
  {
  }

  /** The claim is won and the send has an outcome. */
  ghost predicate Sent(t: Tables, d: Listed, env: Env) {
    env.refusal == None && !env.claimFault && d.id in t.rows && t.rows[d.id].status == Pending
  }

  /** ... and the listed copy leaves another attempt after a retryable failure. */
  ghost predicate WillRetry(t: Tables, d: Listed, env: Env) {
    Sent(t, d, env) && !env.recordFault && env.outcome.Retryable? && d.row.attempts + 1 < d.row.maxAttempts
  }

  /** The tables after a send that is not retried. (`QDue.RetryRow` is about the others.) */
  lemma SentOnce(cfg: Config, t: Tables, d: Listed, env: Env)
    requires Sent(t, d, env) && !WillRetry(t, d, env)
    ensures var t', r := Processed(cfg, t, d, env), t.rows[d.id];
      if env.recordFault then
        t' == Tables(t.rows[d.id := r.(status := InFlight, updatedAt := env.claimAt)], t.dlq)
      else if env.outcome.Delivered? then
        t' == Tables(t.rows[d.id := r.(status := Status.Delivered, attempts := r.attempts + 1, lastError := None, updatedAt := env.recordAt)], t.dlq)
      else
        && t'.rows == t.rows[d.id := r.(status := DeadLetter, lastError := Some(env.outcome.err), updatedAt := env.recordAt)]
        && t'.dlq == t.dlq + [DlqEntry(d.id, r.destination, r.payload, r.attempts, env.outcome.err, env.recordAt)]
  {
  }

  class Worker {
    const db: Db
    const cfg: Config

    constructor (db: Db, cfg: Config)
      ensures this.db == db && this.cfg == cfg
    {
      this.db, this.cfg := db, cfg;
    }

    method Bury(d: Listed, err: string, now: int, fault: bool)
      requires db.Valid()
      modifies db
      ensures db.Valid()
      ensures Tables(db.rows, db.dlq) ==
        if fault then Tables(old(db.rows), old(db.dlq))
        else Tables(AfterBurial(old(db.rows), d.id, err, now), DlqAfterBurial(old(db.rows), old(db.dlq), d.id, err, now))
    {
      var _ := db.DeadLetter(d.id, err, now, fault);
    }

    method Process(d: Listed, env: Env)
      requires db.Valid()
      modifies db
      ensures db.Valid()
      ensures Tables(db.rows, db.dlq) == Processed(cfg, Tables(old(db.rows), old(db.dlq)), d, env)
    {
      if env.refusal.Some? {
        Bury(d, env.refusal.value, env.claimAt, env.claimFault);
        return;
      }
      var won := db.Claim(d.id, env.claimAt, env.claimFault);
      if won != Some(true) {
        return;   // lost the claim race, or SQLite failed
      }
      var attempt := d.row.attempts + 1;
      match env.outcome
      case Delivered =>
        db.MarkDelivered(d.id, env.recordAt, env.recordFault);
      case Retryable(err) =>
        if attempt >= d.row.maxAttempts {
          Bury(d, err, env.recordAt, env.recordFault);
        } else {
          var delay := Backoff.NextDelayMs(attempt, cfg.baseMs, cfg.maxMs, env.draw);
          db.ScheduleRetry(d.id, env.recordAt + Backoff.AsI64(delay), err, env.recordAt, env.recordFault);
        }
      case Permanent(err) =>
        Bury(d, err, env.recordAt, env.recordFault);
    }

    /** What `run` does before its loop; a failure counts as zero rows. */
    method Start(now: int, fault: bool) returns (n: nat)
      requires db.Valid()
      modifies db
      ensures db.Valid() && db.dlq == old(db.dlq)
      ensures fault ==> n == 0 && db.rows == old(db.rows)
      ensures !fault ==> n == |StaleIds(old(db.rows), now, cfg.staleMs)|
      ensures !fault ==> db.rows == AfterReset(old(db.rows), StaleIds(old(db.rows), now, cfg.staleMs), now)
    {
      var reset := db.ResetStaleInFlight(now, cfg.staleMs, fault);
      n := if reset.Some? then reset.value else 0;
    }

    /** One turn of the loop of `run`: list the due rows, process each; a
        listing that fails is taken as empty. */
    method Poll(now: int, answer: seq<Id>, fault: bool, envs: seq<Env>)
      requires db.Valid()
      requires Oldest(DueTimes(db.rows, now), cfg.limit, answer) && |envs| == |answer|
      modifies db
      ensures db.Valid()
      ensures fault ==> db.rows == old(db.rows) && db.dlq == old(db.dlq)
      ensures !fault ==>
        Tables(db.rows, db.dlq) == ProcessedAll(cfg, Tables(old(db.rows), old(db.dlq)), Listing(old(db.rows), answer), envs)
    {
      var listed := db.ListDue(now, cfg.limit, answer, fault);
      if listed == None {
        return;
      }
      var due := listed.value;
      ghost var todo := Listing(db.rows, answer);
      for i := 0 to |due|
        invariant db.Valid() && |todo| == |envs| == |due|
        invariant forall j | 0 <= j < |due| :: todo[j] == Listed(due[j].0, due[j].1)
        invariant Tables(db.rows, db.dlq) == ProcessedAll(cfg, Tables(old(db.rows), old(db.dlq)), todo[..i], envs[..i])
      {
        Process(Listed(due[i].0, due[i].1), envs[i]);
        ProcessedNext(cfg, Tables(old(db.rows), old(db.dlq)), todo, envs, i);
      }
      assert todo[..|due|] == todo && envs[..|due|] == envs;
    }
  }

  // ------------------------------------------------- the worker follows the protocol

  /** What `Process` leaves in the tables is what some run of the protocol,
      taking only this worker's steps and the clock, leaves there; the worker
      is then ready for the rest of its list. */
  lemma ProcessIsARun(cfg: Config, s: State, w: nat, d: Listed, env: Env) returns (b: seq<State>, steps: seq<Step>)
    requires w < |s.workers| && s.workers[w].phase.Ready? && s.workers[w].todo != [] && s.workers[w].todo[0] == d
    requires s.clock <= env.claimAt <= env.recordAt
    ensures IsRun(cfg, b, steps) && b[0] == s
    ensures var s' := b[|b| - 1];
      && Tables(s'.rows, s'.dlq) == Processed(cfg, Tables(s.rows, s.dlq), d, env)
      && s'.workers == s.workers[w := Worker(Ready, s.workers[w].todo[1..])]
      && s.clock <= s'.clock <= env.recordAt
  {
    b, steps := Append(cfg, [s], [], Advance(env.claimAt));
    if env.refusal.Some? {
      b, steps := Append(cfg, b, steps, Reject(w, d.id, env.refusal.value, env.claimFault));
    } else {
      b, steps := Append(cfg, b, steps, Claim(w, d.id, env.claimFault));
      if !env.claimFault && Claimable(s.rows, d.id) {
        b, steps := SendAndRecord(cfg, b, steps, w, d, env);
      }
    }
  }

  lemma SendAndRecord(cfg: Config, b0: seq<State>, steps0: seq<Step>, w: nat, d: Listed, env: Env) returns (b: seq<State>, steps: seq<Step>)
    requires IsRun(cfg, b0, steps0)
    requires var s := b0[|b0| - 1]; w < |s.workers| && s.workers[w].phase == Sending(d) && s.clock <= env.recordAt
    ensures IsRun(cfg, b, steps) && b[0] == b0[0]
    ensures var s, s' := b0[|b0| - 1], b[|b| - 1];
      && s'.workers == s.workers[w := Worker(Ready, s.workers[w].todo)]
      && s'.clock == env.recordAt
      && Tables(s'.rows, s'.dlq) ==
        if env.recordFault then Tables(s.rows, s.dlq)
        else Tables(RecordedRows(cfg, s.rows, d, env.outcome, env.draw, env.recordAt), RecordedDlq(s.rows, s.dlq, d, env.outcome, env.recordAt))
  {
    b, steps := Append(cfg, b0, steps0, Send(w, d.id, env.outcome));
    b, steps := Append(cfg, b, steps, Advance(env.recordAt));
    b, steps := Append(cfg, b, steps, Record(w, d.id, env.draw, env.recordFault));
  }
}
