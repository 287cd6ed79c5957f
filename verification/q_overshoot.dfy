/** q: the send bound is attained. Workers that listed a row while it had an
    attempt left each get to retry it, one after the other. */
module QOvershoot {
  import opened Common
  import opened Selection
  import opened QStore
  import opened QClassify
  import opened QProtocol
  import opened QSends
  import Backoff

  /** Some run without stale resets or rejections leads from `s` to `s'`. */
  ghost predicate Leads(cfg: Config, s: State, s': State) {
    exists b, steps :: RunBetween(cfg, b, steps, s, s')
  }

  ghost predicate RunBetween(cfg: Config, b: seq<State>, steps: seq<Step>, s: State, s': State) {
    IsRun(cfg, b, steps) && b[0] == s && b[|b| - 1] == s' && Undisturbed(steps, 1)
  }

  lemma NoStep(cfg: Config, s: State)
    ensures Leads(cfg, s, s)
  {
    assert RunBetween(cfg, [s], [], s, s);
  }

  lemma OneStep(cfg: Config, s: State, st: Step)
    requires Enabled(cfg, s, st) && Calm(st, 1)
    ensures Leads(cfg, s, Apply(cfg, s, st))
  {
    assert RunBetween(cfg, [s, Apply(cfg, s, st)], [st], s, Apply(cfg, s, st));
  }

  lemma Chain(cfg: Config, s: State, t: State, u: State)
    requires Leads(cfg, s, t) && Leads(cfg, t, u)
    ensures Leads(cfg, s, u)
  {
    var b, steps :| RunBetween(cfg, b, steps, s, t);
    var c, more :| RunBetween(cfg, c, more, t, u);
    Joined(cfg, b, steps, c, more);
    assert RunBetween(cfg, b + c[1..], steps + more, s, u);
  }

  lemma Joined(cfg: Config, b: seq<State>, steps: seq<Step>, c: seq<State>, more: seq<Step>)
    requires IsRun(cfg, b, steps) && IsRun(cfg, c, more) && b[|b| - 1] == c[0] && Undisturbed(steps, 1) && Undisturbed(more, 1)
    ensures IsRun(cfg, b + c[1..], steps + more) && Undisturbed(steps + more, 1)
    ensures (b + c[1..])[|b + c[1..]| - 1] == c[|c| - 1]
  {
    var d, all := b + c[1..], steps + more;
    forall i | 0 <= i < |all| ensures Enabled(cfg, d[i], all[i]) && d[i + 1] == Apply(cfg, d[i], all[i]) && Calm(all[i], 1) {
      if i < |steps| {
        assert all[i] == steps[i] && d[i] == b[i] && d[i + 1] == b[i + 1];
      } else {
        var j := i - |steps|;
        assert all[i] == more[j] && d[i] == c[j] && d[i + 1] == c[j + 1];
      }
    }
  }

  // ------------------------------------------------------ one row, failing each time

  const IDLE := Worker(Ready, [])
  const FAILS := Retryable("HTTP")

  function RowAt(a: nat, max: nat): Delivery {
    Delivery(None, "to", "body", Pending, a, max, 0, if a == 0 then None else Some("HTTP"), 0, 0)
  }

  function Failures(a: nat): seq<Outcome> {
    seq(a, _ => FAILS)
  }

  /** After `a` failed sends, with the row pending and due. */
  function After(a: nat, max: nat, workers: seq<Worker>): State {
    State(map[1 := RowAt(a, max)], [], workers, 0, map[1 := Ledger(Failures(a), 0, false, 0, false)], [], [Reply(None, 1, Some(Pending))])
  }

  /** A worker that listed the row after `a` failed sends. */
  function Holder(a: nat, max: nat): Worker {
    Worker(Ready, [Listed(1, RowAt(a, max))])
  }

  lemma Lists(cfg: Config, a: nat, max: nat, workers: seq<Worker>, w: nat)
    requires cfg.limit >= 1 && w < |workers| && workers[w] == IDLE
    ensures Leads(cfg, After(a, max, workers), After(a, max, workers[w := Holder(a, max)]))
  {
    OnlyOne(DueTimes(map[1 := RowAt(a, max)], 0), cfg.limit, 1);
    var s := After(a, max, workers);
    assert Listing(s.rows, [1]) == [Listed(1, RowAt(a, max))];
    OneStep(cfg, s, List(w, [1]));
  }

  /** Claim and send, up to the recording. */
  lemma Sends(cfg: Config, a: nat, max: nat, workers: seq<Worker>, w: nat, b: nat, outcome: Outcome) returns (s: State)
    requires w < |workers| && workers[w] == Holder(b, max)
    ensures Leads(cfg, After(a, max, workers), s)
    ensures s == After(a, max, workers[w := Worker(Answered(Listed(1, RowAt(b, max)), outcome), [])])
      .(rows := map[1 := RowAt(a, max).(status := InFlight)],
        ledger := map[1 := Ledger(Failures(a) + [outcome], 0, false, 0, outcome.Delivered?)])
  {
    var s0, claim, send := After(a, max, workers), Claim(w, 1, false), Send(w, 1, outcome);
    var s1 := Apply(cfg, s0, claim);
    assert Holder(b, max).todo[1..] == [];
    assert s1 == s0.(rows := map[1 := RowAt(a, max).(status := InFlight)], workers := workers[w := Worker(Sending(Listed(1, RowAt(b, max))), [])]);
    OneStep(cfg, s0, claim);
    s := Apply(cfg, s1, send);
    OneStep(cfg, s1, send);
    Chain(cfg, s0, s1, s);
  }

  /** A worker whose copy has an attempt left retries, however many were made since. */
  lemma Retries(cfg: Config, a: nat, max: nat, workers: seq<Worker>, w: nat, b: nat)
    requires w < |workers| && workers[w] == Holder(b, max) && b + 1 < max
    ensures Leads(cfg, After(a, max, workers), After(a + 1, max, workers[w := IDLE]))
  {
    var s := Sends(cfg, a, max, workers, w, b, FAILS);
    var record := Record(w, 1, 0, false);
    var s' := Apply(cfg, s, record);
    assert Failures(a) + [FAILS] == Failures(a + 1);
    assert Backoff.NextDelayMs(b + 1, cfg.baseMs, cfg.maxMs, 0) == 0;
    assert s'.workers == workers[w := IDLE];
    assert s' == After(a + 1, max, workers[w := IDLE]);
    OneStep(cfg, s, record);
    Chain(cfg, After(a, max, workers), s, s');
  }

  /** ... one whose copy has none buries the row, and a 2xx ends it. */
  lemma Ends(cfg: Config, a: nat, max: nat, workers: seq<Worker>, w: nat, ok: bool) returns (s': State)
    requires w < |workers| && workers[w] == Holder(a, max) && (ok || a + 1 >= max)
    ensures Leads(cfg, After(a, max, workers), s')
    ensures 1 in s'.rows && s'.rows[1].maxAttempts == max && s'.rows[1].status == if ok then Status.Delivered else DeadLetter
    ensures s'.ledger == map[1 := Ledger(Failures(a) + [if ok then Outcome.Delivered else FAILS], 0, !ok, 0, ok)]
    ensures s'.workers == workers[w := IDLE]
  {
    var s := Sends(cfg, a, max, workers, w, a, if ok then Outcome.Delivered else FAILS);
    var record := Record(w, 1, 0, false);
    s' := Apply(cfg, s, record);
    OneStep(cfg, s, record);
    Chain(cfg, After(a, max, workers), s, s');
  }

  function Idle(n: nat): seq<Worker> {
    seq(n, _ => IDLE)
  }

  /** The first `k` of `n` workers have the row listed. */
  function FirstHold(a: nat, max: nat, n: nat, k: nat): seq<Worker> {
    seq(n, i => if i < k then Holder(a, max) else IDLE)
  }

  lemma {:induction false} AllList(cfg: Config, a: nat, max: nat, n: nat, k: nat)
    requires cfg.limit >= 1 && k <= n
    ensures Leads(cfg, After(a, max, Idle(n)), After(a, max, FirstHold(a, max, n, k)))
    decreases k
  {
    if k == 0 {
      assert FirstHold(a, max, n, 0) == Idle(n);
      NoStep(cfg, After(a, max, Idle(n)));
    } else {
      AllList(cfg, a, max, n, k - 1);
      var before := FirstHold(a, max, n, k - 1);
      Lists(cfg, a, max, before, k - 1);
      assert before[k - 1 := Holder(a, max)] == FirstHold(a, max, n, k);
      Chain(cfg, After(a, max, Idle(n)), After(a, max, before), After(a, max, FirstHold(a, max, n, k)));
    }
  }

  /** The holders retry in turn, the last one first. */
  lemma {:induction false} AllRetry(cfg: Config, a: nat, b: nat, max: nat, n: nat, k: nat)
    requires b + 1 < max && k <= n
    ensures Leads(cfg, After(a, max, FirstHold(b, max, n, k)), After(a + k, max, Idle(n)))
    decreases k
  {
    var before := FirstHold(b, max, n, k);
    if k == 0 {
      assert before == Idle(n);
      NoStep(cfg, After(a, max, before));
    } else {
      Retries(cfg, a, max, before, k - 1, b);
      assert before[k - 1 := IDLE] == FirstHold(b, max, n, k - 1);
      AllRetry(cfg, a + 1, b, max, n, k - 1);
      Chain(cfg, After(a, max, before), After(a + 1, max, FirstHold(b, max, n, k - 1)), After(a + k, max, Idle(n)));
    }
  }

  /** One worker's ordinary retries. */
  lemma {:induction false} OneRetries(cfg: Config, a: nat, max: nat, n: nat)
    requires cfg.limit >= 1 && n >= 1 && a < max
    ensures Leads(cfg, After(0, max, Idle(n)), After(a, max, Idle(n)))
    decreases a
  {
    if a == 0 {
      NoStep(cfg, After(0, max, Idle(n)));
    } else {
      OneRetries(cfg, a - 1, max, n);
      AllList(cfg, a - 1, max, n, 1);
      AllRetry(cfg, a - 1, a - 1, max, n, 1);
      var s, t, u := After(a - 1, max, Idle(n)), After(a - 1, max, FirstHold(a - 1, max, n, 1)), After(a, max, Idle(n));
      Chain(cfg, s, t, u);
      Chain(cfg, After(0, max, Idle(n)), s, u);
    }
  }

  /** All workers start. */
  function Started(n: nat, k: nat): seq<Worker> {
    seq(n, i => if i < k then IDLE else Worker(Starting, []))
  }

  lemma {:induction false} AllStart(cfg: Config, n: nat, k: nat)
    requires k <= n
    ensures Leads(cfg, Init(n), Init(n).(workers := Started(n, k)))
    decreases k
  {
    if k == 0 {
      assert Started(n, 0) == Init(n).workers;
      NoStep(cfg, Init(n));
    } else {
      AllStart(cfg, n, k - 1);
      var s := Init(n).(workers := Started(n, k - 1));
      OneStep(cfg, s, Startup(k - 1, {}));
      assert Started(n, k - 1)[k - 1 := IDLE] == Started(n, k);
      Chain(cfg, Init(n), s, Init(n).(workers := Started(n, k)));
    }
  }

  lemma Accepted(cfg: Config, n: nat, max: nat)
    ensures Leads(cfg, Init(n), After(0, max, Idle(n)))
  {
    AllStart(cfg, n, n);
    assert Started(n, n) == Idle(n);
    var s, submit := Init(n).(workers := Idle(n)), Submit(NewDelivery(1, None, "to", "body", max));
    OneStep(cfg, s, submit);
    assert InsertAnswer(s.rows, submit.d) == Inserted && Failures(0) == [];
    assert Apply(cfg, s, submit) == After(0, max, Idle(n));
    Chain(cfg, Init(n), s, After(0, max, Idle(n)));
  }

  /** For every limit and every number of workers, some run with neither stale
      reset nor rejection makes as many sends before the row is dead. */
  lemma BoundIsAttained(cfg: Config, workers: nat, max: nat) returns (b: seq<State>, steps: seq<Step>)
    requires cfg.limit >= 1 && workers >= 1
    ensures IsService(cfg, workers, b, steps) && Undisturbed(steps, 1)
    ensures var s := b[|b| - 1];
      && 1 in s.rows && s.rows[1].maxAttempts == max && s.rows[1].status == DeadLetter
      && 1 in s.ledger && |s.ledger[1].answers| == WorstCase(max, workers)
      && s.ledger[1].answers[|s.ledger[1].answers| - 1].Retryable?
  {
    var idle, a := Idle(workers), WorstCase(max, workers) - 1;
    Accepted(cfg, workers, max);
    if max >= 2 { ManyRetry(cfg, workers, max); }
    Lists(cfg, a, max, idle, 0);
    var last := Ends(cfg, a, max, idle[0 := Holder(a, max)], 0, false);
    if max >= 2 { Chain(cfg, Init(workers), After(0, max, idle), After(a, max, idle)); }
    Chain(cfg, Init(workers), After(a, max, idle), After(a, max, idle[0 := Holder(a, max)]));
    Chain(cfg, Init(workers), After(a, max, idle[0 := Holder(a, max)]), last);
    b, steps :| RunBetween(cfg, b, steps, Init(workers), last);
  }

  /** One worker retries until one attempt is left to spend, then all list. */
  lemma ManyRetry(cfg: Config, workers: nat, max: nat)
    requires cfg.limit >= 1 && workers >= 1 && max >= 2
    ensures Leads(cfg, After(0, max, Idle(workers)), After(max - 2 + workers, max, Idle(workers)))
  {
    var s, t := After(0, max, Idle(workers)), After(max - 2, max, FirstHold(max - 2, max, workers, workers));
    OneRetries(cfg, max - 2, max, workers);
    AllList(cfg, max - 2, max, workers, workers);
    AllRetry(cfg, max - 2, max - 2, max, workers, workers);
    Chain(cfg, s, After(max - 2, max, Idle(workers)), t);
    Chain(cfg, s, t, After(max - 2 + workers, max, Idle(workers)));
  }
}
