/** q's limiter when clock readings are pushed out of lock order: `check` reads
    the clock before it takes the lock. The rule is asked of the hits that the
    limiter itself accepted. */
module Readings {
  import opened Common
  import opened RateLimit
  import Backoff

  ghost function NextPushed(hits: Hits, pushed: seq<Hit>, op: Op, limit: Backoff.u32, window: nat): seq<Hit> {
    if op.Check? && Accepts(hits, op.key, op.now, limit, window) then pushed + [Hit(op.key, op.now)] else pushed
  }

  /** The hits accepted in `ops`, in the order they were pushed. */
  ghost function Pushed(ops: seq<Op>, limit: Backoff.u32, window: nat): seq<Hit> {
    if ops == [] then []
    else
      var before := ops[..|ops| - 1];
      NextPushed(Table(before, limit, window), Pushed(before, limit, window), ops[|ops| - 1], limit, window)
  }

  ghost function PushedFor(ops: seq<Op>, key: string, limit: Backoff.u32, window: nat): seq<Instant> {
    Times(Pushed(ops, limit, window), key)
  }

  ghost function DequeFor(ops: seq<Op>, key: string, limit: Backoff.u32, window: nat): seq<Instant> {
    Deque(Table(ops, limit, window), key)
  }

  /** A check at `now` is answered as the documented rule would answer it. */
  ghost predicate ByTheRule(ops: seq<Op>, key: string, now: Instant, limit: Backoff.u32, window: nat) {
    Accepts(Table(ops, limit, window), key, now, limit, window) <==> Live(PushedFor(ops, key, limit, window), now, window) < limit
  }

  ghost predicate UpTo(ops: seq<Op>, clock: Instant) {
    forall i | 0 <= i < |ops| :: ops[i].now <= clock
  }

  ghost predicate AllChecks(ops: seq<Op>) {
    forall i | 0 <= i < |ops| :: ops[i].Check?
  }

  /** Ordered readings, none before `clock`. */
  ghost predicate OrderedFrom(ops: seq<Op>, clock: Instant) {
    Ordered(ops) && forall i | 0 <= i < |ops| :: clock <= ops[i].now
  }

  /** From now on, with ordered readings, every check of the key is right. */
  ghost predicate RightFrom(ops: seq<Op>, key: string, clock: Instant, limit: Backoff.u32, window: nat) {
    forall more: seq<Op>, now: Instant | OrderedFrom(more + [Check(key, now)], clock) :: ByTheRule(ops + more, key, now, limit, window)
  }

  // -------------------------------------------------------- dropping expired hits

  lemma {:induction false} DropIsSuffix(d: seq<Instant>, now: Instant, window: nat)
    ensures var k := DropExpired(d, now, window);
      && |k| <= |d| && k == d[|d| - |k|..] && (k != [] ==> Since(now, k[0]) < window)
      && forall i | 0 <= i < |d| - |k| :: Since(now, d[i]) >= window
    decreases |d|
  {
    if d != [] && Since(now, d[0]) >= window {
      DropIsSuffix(d[1..], now, window);
      assert forall i | 0 < i < |d| :: d[i] == d[1..][i - 1];
    }
  }

  /** A hit that is not expired stops the dropping. */
  lemma DropStops(d: seq<Instant>, i: nat, now: Instant, window: nat)
    requires i < |d| && Since(now, d[i]) < window
    ensures |DropExpired(d, now, window)| >= |d| - i
  {
    DropIsSuffix(d, now, window);
  }

  lemma {:induction false} DropLater(d: seq<Instant>, m: Instant, n: Instant, window: nat)
    requires m <= n
    ensures DropExpired(DropExpired(d, m, window), n, window) == DropExpired(d, n, window)
    decreases |d|
  {
    if d != [] && Since(m, d[0]) >= window {
      DropLater(d[1..], m, n, window);
    }
  }

  // ------------------------------------------------------------ what a step does

  /** The deque of a key after a check of it. */
  function Checked(d: seq<Instant>, now: Instant, limit: nat, window: nat): seq<Instant> {
    var k := DropExpired(d, now, window);
    if |k| < limit then k + [now] else k
  }

  function Pruned(d: seq<Instant>, now: Instant, window: nat): seq<Instant> {
    if d != [] && Since(now, d[|d| - 1]) < window then d else []
  }

  function NextDeque(d: seq<Instant>, op: Op, key: string, limit: nat, window: nat): seq<Instant> {
    match op
    case Check(k, now) => if k == key then Checked(d, now, limit, window) else d
    case Prune(now) => Pruned(d, now, window)
  }

  function NextTimes(d: seq<Instant>, ts: seq<Instant>, op: Op, key: string, limit: nat, window: nat): seq<Instant> {
    if op.Check? && op.key == key && |DropExpired(d, op.now, window)| < limit then ts + [op.now] else ts
  }

  lemma StepFor(ops: seq<Op>, op: Op, key: string, limit: Backoff.u32, window: nat)
    requires |DequeFor(ops, key, limit, window)| <= limit
    ensures DequeFor(ops + [op], key, limit, window) == NextDeque(DequeFor(ops, key, limit, window), op, key, limit, window)
    ensures PushedFor(ops + [op], key, limit, window)
      == NextTimes(DequeFor(ops, key, limit, window), PushedFor(ops, key, limit, window), op, key, limit, window)
  {
    assert (ops + [op])[..|ops|] == ops;
    var hits, pushed := Table(ops, limit, window), Pushed(ops, limit, window);
    if op.Check? {
      CheckDeques(hits, op.key, op.now, limit, window, key);
      TimesSnoc(pushed, Hit(op.key, op.now), key);
      DropIsSuffix(Deque(hits, key), op.now, window);
    }
  }

  lemma {:induction false} DequeShort(ops: seq<Op>, key: string, limit: Backoff.u32, window: nat)
    ensures |DequeFor(ops, key, limit, window)| <= limit
    decreases |ops|
  {
    if ops != [] {
      var before := ops[..|ops| - 1];
      DequeShort(before, key, limit, window);
      assert ops == before + [ops[|ops| - 1]];
      StepFor(before, ops[|ops| - 1], key, limit, window);
      DropIsSuffix(DequeFor(before, key, limit, window), ops[|ops| - 1].now, window);
    }
  }

  lemma OneOp(ops: seq<Op>, op: Op, key: string, limit: Backoff.u32, window: nat)
    ensures DequeFor(ops + [op], key, limit, window) == NextDeque(DequeFor(ops, key, limit, window), op, key, limit, window)
    ensures PushedFor(ops + [op], key, limit, window)
      == NextTimes(DequeFor(ops, key, limit, window), PushedFor(ops, key, limit, window), op, key, limit, window)
  {
    DequeShort(ops, key, limit, window);
    StepFor(ops, op, key, limit, window);
  }

  lemma Answer(ops: seq<Op>, key: string, now: Instant, limit: Backoff.u32, window: nat)
    ensures Accepts(Table(ops, limit, window), key, now, limit, window) <==> |DropExpired(DequeFor(ops, key, limit, window), now, window)| < limit
    ensures |DropExpired(DequeFor(ops, key, limit, window), now, window)| <= limit
  {
    DequeShort(ops, key, limit, window);
    DropIsSuffix(DequeFor(ops, key, limit, window), now, window);
  }

  // ---------------------------------------------------- what the deque remembers

  /** The deque ends the pushed hits; the hits no longer in it have expired. */
  ghost predicate Remembered(d: seq<Instant>, ts: seq<Instant>, clock: Instant, window: nat) {
    && |d| <= |ts| && d == ts[|ts| - |d|..]
    && (forall i | 0 <= i < |ts| :: ts[i] <= clock)
    && (forall i | 0 <= i < |ts| - |d| :: clock - ts[i] >= window)
  }

  ghost predicate Remembers(ops: seq<Op>, key: string, clock: Instant, limit: Backoff.u32, window: nat) {
    Remembered(DequeFor(ops, key, limit, window), PushedFor(ops, key, limit, window), clock, window)
  }

  lemma DropRemembered(d: seq<Instant>, ts: seq<Instant>, m: Instant, n: Instant, window: nat)
    requires Remembered(d, ts, m, window) && m <= n
    ensures Remembered(DropExpired(d, n, window), ts, n, window)
  {
    var k := DropExpired(d, n, window);
    DropIsSuffix(d, n, window);
    forall i | 0 <= i < |ts| - |k| ensures n - ts[i] >= window {
      if i >= |ts| - |d| { assert ts[i] == d[i - (|ts| - |d|)]; }
    }
    assert k == ts[|ts| - |k|..];
  }

  lemma PushRemembered(k: seq<Instant>, ts: seq<Instant>, now: Instant, clock: Instant, window: nat)
    requires Remembered(k, ts, clock, window) && now <= clock
    ensures Remembered(k + [now], ts + [now], clock, window)
  {
  }

  /** A check at any reading keeps that, and so does every later clock. */
  lemma CheckRemembers(d: seq<Instant>, ts: seq<Instant>, now: Instant, clock: Instant, limit: nat, window: nat)
    requires Remembered(d, ts, clock, window) && now <= clock
    ensures Remembered(DropExpired(d, now, window), ts, clock, window)
  {
    var k := DropExpired(d, now, window);
    DropIsSuffix(d, now, window);
    forall i | 0 <= i < |ts| - |k| ensures clock - ts[i] >= window {
      if i >= |ts| - |d| { assert ts[i] == d[i - (|ts| - |d|)]; }
    }
    assert k == ts[|ts| - |k|..];
  }

  lemma StepRemembers(d: seq<Instant>, ts: seq<Instant>, op: Op, key: string, clock: Instant, limit: nat, window: nat)
    requires Remembered(d, ts, clock, window) && op.Check? && op.now <= clock
    ensures Remembered(NextDeque(d, op, key, limit, window), NextTimes(d, ts, op, key, limit, window), clock, window)
  {
    CheckRemembers(d, ts, op.now, clock, limit, window);
    PushRemembered(DropExpired(d, op.now, window), ts, op.now, clock, window);
  }

  /** Checks alone never forget a live hit, whatever their readings. */
  lemma {:induction false} ChecksRemember(ops: seq<Op>, key: string, clock: Instant, limit: Backoff.u32, window: nat)
    requires UpTo(ops, clock) && AllChecks(ops)
    ensures Remembers(ops, key, clock, limit, window)
    decreases |ops|
  {
    if ops != [] {
      var before, op := ops[..|ops| - 1], ops[|ops| - 1];
      ChecksRemember(before, key, clock, limit, window);
      assert ops == before + [op];
      OneOp(before, op, key, limit, window);
      StepRemembers(DequeFor(before, key, limit, window), PushedFor(before, key, limit, window), op, key, clock, limit, window);
    }
  }

  // ------------------------------------------------------- right while sorted

  /** What the deque still holds at `clock` is in order. */
  ghost predicate Clean(d: seq<Instant>, ts: seq<Instant>, clock: Instant, window: nat) {
    Remembered(DropExpired(d, clock, window), ts, clock, window) && Sorted(DropExpired(d, clock, window))
  }

  lemma CleanLater(d: seq<Instant>, ts: seq<Instant>, m: Instant, n: Instant, window: nat)
    requires Clean(d, ts, m, window) && m <= n
    ensures Clean(d, ts, n, window)
  {
    var k := DropExpired(d, m, window);
    DropRemembered(k, ts, m, n, window);
    DropLater(d, m, n, window);
    DropIsSuffix(k, n, window);
  }

  lemma CleanCounts(d: seq<Instant>, ts: seq<Instant>, now: Instant, window: nat)
    requires Clean(d, ts, now, window)
    ensures Live(ts, now, window) == |DropExpired(d, now, window)|
  {
    var k := DropExpired(d, now, window);
    DropIsSuffix(d, now, window);
    forall i | |ts| - |k| <= i < |ts| ensures now - ts[i] < window { assert ts[i] == k[i - (|ts| - |k|)]; }
    LiveSuffix(ts, |ts| - |k|, now, window);
  }

  lemma SortedSnoc(k: seq<Instant>, h: Instant)
    requires Sorted(k)
    ensures Sorted(k + [h]) <==> forall i | 0 <= i < |k| :: k[i] <= h
  {
    if Sorted(k + [h]) {
      forall i | 0 <= i < |k| ensures k[i] <= h { assert (k + [h])[i] == k[i] && (k + [h])[|k|] == h; }
    }
  }

  /** Pushing the newest reading, or dropping, keeps the deque clean. */
  lemma CleanCheck(d: seq<Instant>, ts: seq<Instant>, now: Instant, limit: nat, window: nat)
    requires Clean(d, ts, now, window)
    ensures var k := DropExpired(d, now, window); Clean(if |k| < limit then k + [now] else k, if |k| < limit then ts + [now] else ts, now, window)
  {
    var k := DropExpired(d, now, window);
    DropLater(d, now, now, window);
    if |k| < limit {
      DropIsSuffix(d, now, window);
      CleanPush(k, ts, now, window);
    }
  }

  lemma CleanPush(k: seq<Instant>, ts: seq<Instant>, now: Instant, window: nat)
    requires Remembered(k, ts, now, window) && Sorted(k) && (k != [] ==> Since(now, k[0]) < window)
    ensures Clean(k + [now], ts + [now], now, window)
  {
    PushRemembered(k, ts, now, now, window);
    SortedSnoc(k, now);
    if k == [] {
      DropRemembered([now], ts + [now], now, now, window);
      DropIsSuffix([now], now, window);
    } else {
      assert (k + [now])[0] == k[0];
      assert DropExpired(k + [now], now, window) == k + [now];
    }
  }

  lemma CleanPrune(d: seq<Instant>, ts: seq<Instant>, now: Instant, window: nat)
    requires Clean(d, ts, now, window)
    ensures Clean(Pruned(d, now, window), ts, now, window)
  {
    DropIsSuffix(d, now, window);
    var k := DropExpired(d, now, window);
    if k != [] { assert d[|d| - 1] == k[|k| - 1] && k[0] <= k[|k| - 1]; }
  }

  lemma CleanStep(d: seq<Instant>, ts: seq<Instant>, op: Op, key: string, limit: nat, window: nat)
    requires Clean(d, ts, op.now, window)
    ensures Clean(NextDeque(d, op, key, limit, window), NextTimes(d, ts, op, key, limit, window), op.now, window)
  {
    CleanCheck(d, ts, op.now, limit, window);
    CleanPrune(d, ts, op.now, window);
  }

  ghost predicate CleanFor(ops: seq<Op>, key: string, clock: Instant, limit: Backoff.u32, window: nat) {
    Clean(DequeFor(ops, key, limit, window), PushedFor(ops, key, limit, window), clock, window)
  }

  lemma CleanOp(ops: seq<Op>, op: Op, key: string, now: Instant, limit: Backoff.u32, window: nat)
    requires CleanFor(ops, key, op.now, limit, window) && op.now <= now
    ensures CleanFor(ops + [op], key, now, limit, window)
  {
    OneOp(ops, op, key, limit, window);
    CleanStep(DequeFor(ops, key, limit, window), PushedFor(ops, key, limit, window), op, key, limit, window);
    CleanLater(DequeFor(ops + [op], key, limit, window), PushedFor(ops + [op], key, limit, window), op.now, now, window);
  }

  lemma Regroup(a: seq<Op>, b: seq<Op>, c: seq<Op>)
    ensures a + (b + c) == (a + b) + c && a + [] == a
  {
  }

  lemma Front(more: seq<Op>, op: Op, clock: Instant)
    requires OrderedFrom(more + [op], clock)
    ensures OrderedFrom(more, clock) && UpTo(more, op.now) && clock <= op.now
  {
    OrderedFront(more, op);
    assert (more + [op])[|more|] == op && forall i | 0 <= i < |more| :: (more + [op])[i] == more[i];
  }

  lemma SplitLast(more: seq<Op>, clock: Instant, now: Instant) returns (before: seq<Op>, op: Op)
    requires more != [] && OrderedFrom(more, clock) && UpTo(more, now)
    ensures more == before + [op] && |before| < |more|
    ensures OrderedFrom(before, clock) && UpTo(before, op.now) && clock <= op.now <= now
    ensures AllChecks(more) ==> AllChecks(before) && op.Check?
  {
    before, op := more[..|more| - 1], more[|more| - 1];
    Front(before, op, clock);
  }

  lemma {:induction false} CleanRun(ops: seq<Op>, more: seq<Op>, key: string, clock: Instant, now: Instant, limit: Backoff.u32, window: nat)
    requires CleanFor(ops, key, clock, limit, window)
    requires OrderedFrom(more, clock) && UpTo(more, now) && clock <= now
    ensures CleanFor(ops + more, key, now, limit, window)
    decreases |more|
  {
    if more == [] {
      Regroup(ops, [], []);
      CleanLater(DequeFor(ops, key, limit, window), PushedFor(ops, key, limit, window), clock, now, window);
    } else {
      var before, op := SplitLast(more, clock, now);
      CleanRun(ops, before, key, clock, op.now, limit, window);
      Regroup(ops, before, [op]);
      CleanOp(ops + before, op, key, now, limit, window);
    }
  }

  // ------------------------------------------------------- wrong when out of order

  lemma {:induction false} LiveAtMost(ts: seq<Instant>, from: nat, now: Instant, window: nat)
    requires from <= |ts| && forall i | 0 <= i < from :: now - ts[i] >= window
    ensures Live(ts, now, window) <= |ts| - from
    decreases |ts|
  {
    if ts != [] {
      var n := |ts| - 1;
      LiveAtMost(ts[..n], Min(from, n), now, window);
    }
  }

  lemma {:induction false} LiveBelow(ts: seq<Instant>, from: nat, j: nat, now: Instant, window: nat)
    requires from <= j < |ts| && (forall i | 0 <= i < from :: now - ts[i] >= window) && now - ts[j] >= window
    ensures Live(ts, now, window) < |ts| - from
    decreases |ts|
  {
    var n := |ts| - 1;
    if j == n {
      LiveAtMost(ts[..n], from, now, window);
    } else {
      LiveBelow(ts[..n], from, j, now, window);
    }
  }

  ghost function Held(ops: seq<Op>, key: string, now: Instant, limit: Backoff.u32, window: nat): nat {
    |DropExpired(DequeFor(ops, key, limit, window), now, window)|
  }

  ghost function LiveFor(ops: seq<Op>, key: string, now: Instant, limit: Backoff.u32, window: nat): nat {
    Live(PushedFor(ops, key, limit, window), now, window)
  }

  lemma PushedCount(d: seq<Instant>, now: Instant, window: nat)
    requires window > 0
    ensures |DropExpired(DropExpired(d, now, window) + [now], now, window)| == |DropExpired(d, now, window)| + 1
  {
    var k := DropExpired(d, now, window);
    DropIsSuffix(d, now, window);
    DropStops(k + [now], 0, now, window);
    DropIsSuffix(k + [now], now, window);
  }

  lemma LiveSnoc(ts: seq<Instant>, now: Instant, window: nat)
    requires window > 0
    ensures Live(ts + [now], now, window) == Live(ts, now, window) + 1
  {
    assert (ts + [now])[..|ts|] == ts;
  }

  /** One more accepted check at once. */
  lemma FillOne(ops: seq<Op>, key: string, now: Instant, limit: Backoff.u32, window: nat)
    requires Held(ops, key, now, limit, window) < limit && window > 0
    ensures Held(ops + [Check(key, now)], key, now, limit, window) == Held(ops, key, now, limit, window) + 1
    ensures LiveFor(ops + [Check(key, now)], key, now, limit, window) == LiveFor(ops, key, now, limit, window) + 1
  {
    OneOp(ops, Check(key, now), key, limit, window);
    PushedCount(DequeFor(ops, key, limit, window), now, window);
    LiveSnoc(PushedFor(ops, key, limit, window), now, window);
  }

  lemma ConsAll(op: Op, rest: seq<Op>, now: Instant)
    requires op.now == now && OrderedFrom(rest + [op], now) && UpTo(rest, now)
    ensures OrderedFrom(([op] + rest) + [op], now) && UpTo([op] + rest, now)
    ensures op.Check? && AllChecks(rest) ==> AllChecks([op] + rest)
  {
    assert forall i | 0 <= i < |rest| :: (rest + [op])[i] == rest[i];
  }

  /** More held than live: filling the deque up at once gives a wrong refusal. */
  lemma {:induction false} Refused(ops: seq<Op>, key: string, now: Instant, limit: Backoff.u32, window: nat) returns (more: seq<Op>)
    requires LiveFor(ops, key, now, limit, window) < Held(ops, key, now, limit, window) && window > 0
    ensures OrderedFrom(more + [Check(key, now)], now) && UpTo(more, now) && !ByTheRule(ops + more, key, now, limit, window)
    decreases limit - Held(ops, key, now, limit, window)
  {
    Answer(ops, key, now, limit, window);
    if Held(ops, key, now, limit, window) == limit {
      more := [];
      Regroup(ops, [], []);
    } else {
      var op := Check(key, now);
      FillOne(ops, key, now, limit, window);
      var rest := Refused(ops + [op], key, now, limit, window);
      more := [op] + rest;
      Regroup(ops, [op], rest);
      ConsAll(op, rest, now);
    }
  }

  /** An older hit behind a younger one: at some time the older has expired and
      the younger, still live, keeps it in the deque. */
  lemma HeldTooLong(d: seq<Instant>, ts: seq<Instant>, clock: Instant, window: nat) returns (t: Instant)
    requires Remembered(DropExpired(d, clock, window), ts, clock, window) && !Sorted(DropExpired(d, clock, window))
    ensures t >= clock && window > 0 && Live(ts, t, window) < |DropExpired(d, t, window)|
  {
    var k := DropExpired(d, clock, window);
    DropIsSuffix(d, clock, window);
    var i, j :| 0 <= i < j < |k| && k[i] > k[j];
    t := Max(clock, k[j] + window);
    DropLater(d, clock, t, window);
    StillHeld(k, ts, clock, i, j, t, window);
  }

  lemma StillHeld(k: seq<Instant>, ts: seq<Instant>, clock: Instant, i: nat, j: nat, t: Instant, window: nat)
    requires Remembered(k, ts, clock, window) && i < j < |k| && k[i] > k[j]
    requires Since(clock, k[0]) < window && t == Max(clock, k[j] + window)
    ensures Live(ts, t, window) < |DropExpired(k, t, window)|
  {
    DropRemembered(k, ts, clock, t, window);
    assert ts[|ts| - |k| + i] == k[i] && ts[|ts| - |k| + j] == k[j];
    DropStops(k, if t == clock then 0 else i, t, window);
    LiveBelow(ts, |ts| - |DropExpired(k, t, window)|, |ts| - |k| + j, t, window);
  }

  /** Once the clock has passed every reading, some later answer departs from the
      rule exactly when, among the hits of the key still held, an older one was
      pushed behind a younger one. For histories whose forgotten hits have
      expired, among them all histories of checks; `Late.RightFromExactly` is
      for every history, `Late.LateAnswer` for a check whose reading is late. */
  lemma RightExactly(ops: seq<Op>, key: string, clock: Instant, limit: Backoff.u32, window: nat)
    requires UpTo(ops, clock) && Remembers(ops, key, clock, limit, window)
    ensures RightFrom(ops, key, clock, limit, window) <==> Sorted(DropExpired(DequeFor(ops, key, limit, window), clock, window))
  {
    var d, ts := DequeFor(ops, key, limit, window), PushedFor(ops, key, limit, window);
    DropRemembered(d, ts, clock, clock, window);
    if Sorted(DropExpired(d, clock, window)) {
      forall more: seq<Op>, now: Instant | OrderedFrom(more + [Check(key, now)], clock) ensures ByTheRule(ops + more, key, now, limit, window) {
        Front(more, Check(key, now), clock);
        CleanRun(ops, more, key, clock, now, limit, window);
        CleanCounts(DequeFor(ops + more, key, limit, window), PushedFor(ops + more, key, limit, window), now, window);
        Answer(ops + more, key, now, limit, window);
      }
    } else {
      var t := HeldTooLong(d, ts, clock, window);
      var more := Refused(ops, key, t, limit, window);
      Later(more + [Check(key, t)], t, clock);
    }
  }

  lemma Later(ops: seq<Op>, m: Instant, clock: Instant)
    requires OrderedFrom(ops, m) && clock <= m
    ensures OrderedFrom(ops, clock)
  {
  }

  // --------------------------------------------------- one reading out of order

  /** With ordered readings the limiter's own log is the log of the rule. */
  lemma {:induction false} PushedIsLog(ops: seq<Op>, limit: Backoff.u32, window: nat)
    requires Ordered(ops)
    ensures Pushed(ops, limit, window) == Log(ops, limit, window)
    decreases |ops|
  {
    if ops != [] {
      var before, op := ops[..|ops| - 1], ops[|ops| - 1];
      assert ops == before + [op];
      PushedIsLog(before, limit, window);
      if op.Check? { CheckAnswersByTheLog(before, op.key, op.now, limit, window); }
    }
  }

  lemma OrderedRemembers(ops: seq<Op>, key: string, clock: Instant, limit: Backoff.u32, window: nat)
    requires Ordered(ops) && UpTo(ops, clock)
    ensures Remembers(ops, key, clock, limit, window) && Sorted(DequeFor(ops, key, limit, window))
  {
    PushedIsLog(ops, limit, window);
    Coupled(ops, limit, window, clock, key);
    TracksRemembers(DequeFor(ops, key, limit, window), PushedFor(ops, key, limit, window), clock, limit, window);
  }

  lemma TracksRemembers(d: seq<Instant>, ts: seq<Instant>, clock: Instant, limit: nat, window: nat)
    requires Tracks(d, ts, clock, limit, window)
    ensures Remembered(d, ts, clock, window) && Sorted(d)
  {
  }

  /** After any ordered checks and prunes, one more check with any reading leaves
      all later answers right exactly when it is refused or no younger hit of
      its key is still in the window once the clock has passed all readings. */
  lemma LateReading(ops: seq<Op>, key: string, reading: Instant, clock: Instant, limit: Backoff.u32, window: nat)
    requires Ordered(ops) && UpTo(ops, clock) && reading <= clock
    ensures RightFrom(ops + [Check(key, reading)], key, clock, limit, window) <==>
      || !Accepts(Table(ops, limit, window), key, reading, limit, window)
      || var k := DropExpired(DequeFor(ops, key, limit, window), clock, window); forall i | 0 <= i < |k| :: k[i] <= reading
  {
    var d, op := DequeFor(ops, key, limit, window), Check(key, reading);
    OrderedRemembers(ops, key, clock, limit, window);
    OneOp(ops, op, key, limit, window);
    Answer(ops, key, reading, limit, window);
    StepRemembers(d, PushedFor(ops, key, limit, window), op, key, clock, limit, window);
    RightExactly(ops + [op], key, clock, limit, window);
    LatePush(d, reading, clock, limit, window);
  }

  /** The sorted deque after a check whose reading may be late. */
  lemma LatePush(d: seq<Instant>, reading: Instant, clock: Instant, limit: nat, window: nat)
    requires Sorted(d) && reading <= clock
    ensures var k := DropExpired(d, clock, window);
      Sorted(DropExpired(Checked(d, reading, limit, window), clock, window))
      <==> |DropExpired(d, reading, window)| >= limit || forall i | 0 <= i < |k| :: k[i] <= reading
  {
    var live := DropExpired(d, reading, window);
    DropLater(d, reading, clock, window);
    SortedKept(d, clock, window);
    if |live| < limit {
      DropPushed(live, reading, clock, window);
      SortedSnoc(DropExpired(d, clock, window), reading);
    }
  }

  lemma SortedKept(d: seq<Instant>, now: Instant, window: nat)
    requires Sorted(d)
    ensures Sorted(DropExpired(d, now, window))
  {
    DropIsSuffix(d, now, window);
  }

  /** A hit pushed last is dropped only after all before it. */
  lemma {:induction false} DropPushed(d: seq<Instant>, h: Instant, now: Instant, window: nat)
    ensures DropExpired(d, now, window) != [] ==> DropExpired(d + [h], now, window) == DropExpired(d, now, window) + [h]
    ensures DropExpired(d, now, window) == [] ==> |DropExpired(d + [h], now, window)| <= 1
    decreases |d|
  {
    if d == [] {
      assert d + [h] == [h];
    } else {
      assert (d + [h])[0] == d[0] && (d + [h])[1..] == d[1..] + [h];
      DropPushed(d[1..], h, now, window);
    }
  }

  // ---------------------------------------------------------------- pruning

  ghost predicate Differ(a: seq<Op>, b: seq<Op>, key: string, now: Instant, limit: Backoff.u32, window: nat) {
    Accepts(Table(a, limit, window), key, now, limit, window) && !Accepts(Table(b, limit, window), key, now, limit, window)
  }

  ghost predicate Alike(a: seq<Op>, b: seq<Op>, key: string, now: Instant, limit: Backoff.u32, window: nat) {
    Accepts(Table(a, limit, window), key, now, limit, window) <==> Accepts(Table(b, limit, window), key, now, limit, window)
  }

  /** With and without a prune at `clock`, checks that follow are answered alike. */
  ghost predicate PruneHidden(ops: seq<Op>, key: string, clock: Instant, limit: Backoff.u32, window: nat) {
    forall more: seq<Op>, now: Instant | OrderedFrom(more + [Check(key, now)], clock) && AllChecks(more) ::
      Alike(ops + [Prune(clock)] + more, ops + more, key, now, limit, window)
  }

  lemma SameNext(c: seq<Instant>, d: seq<Instant>, op: Op, key: string, now: Instant, limit: nat, window: nat)
    requires DropExpired(c, op.now, window) == DropExpired(d, op.now, window) && op.Check? && op.now <= now
    ensures DropExpired(NextDeque(c, op, key, limit, window), now, window) == DropExpired(NextDeque(d, op, key, limit, window), now, window)
  {
    DropLater(c, op.now, now, window);
    DropLater(d, op.now, now, window);
  }

  ghost predicate SameHeld(a: seq<Op>, b: seq<Op>, key: string, now: Instant, limit: Backoff.u32, window: nat) {
    DropExpired(DequeFor(a, key, limit, window), now, window) == DropExpired(DequeFor(b, key, limit, window), now, window)
  }

  lemma SameOp(a: seq<Op>, b: seq<Op>, op: Op, key: string, now: Instant, limit: Backoff.u32, window: nat)
    requires SameHeld(a, b, key, op.now, limit, window) && op.Check? && op.now <= now
    ensures SameHeld(a + [op], b + [op], key, now, limit, window)
  {
    OneOp(a, op, key, limit, window);
    OneOp(b, op, key, limit, window);
    SameNext(DequeFor(a, key, limit, window), DequeFor(b, key, limit, window), op, key, now, limit, window);
  }

  lemma {:induction false} SameKept(a: seq<Op>, b: seq<Op>, more: seq<Op>, key: string, clock: Instant, now: Instant, limit: Backoff.u32, window: nat)
    requires SameHeld(a, b, key, clock, limit, window)
    requires OrderedFrom(more, clock) && UpTo(more, now) && clock <= now && AllChecks(more)
    ensures SameHeld(a + more, b + more, key, now, limit, window)
    decreases |more|
  {
    if more == [] {
      Regroup(a, [], []);
      Regroup(b, [], []);
      DropLater(DequeFor(a, key, limit, window), clock, now, window);
      DropLater(DequeFor(b, key, limit, window), clock, now, window);
    } else {
      var before, op := SplitLast(more, clock, now);
      SameKept(a, b, before, key, clock, op.now, limit, window);
      Regroup(a, before, [op]);
      Regroup(b, before, [op]);
      SameOp(a + before, b + before, op, key, now, limit, window);
    }
  }

  lemma Full(a: seq<Op>, b: seq<Op>, key: string, now: Instant, limit: Backoff.u32, window: nat)
    requires Held(a, key, now, limit, window) < Held(b, key, now, limit, window)
    ensures Held(b, key, now, limit, window) <= limit
    ensures Held(b, key, now, limit, window) == limit ==> Differ(a, b, key, now, limit, window)
  {
    Answer(a, key, now, limit, window);
    Answer(b, key, now, limit, window);
  }

  /** Fewer held in one than in the other: filling up at once tells them apart. */
  lemma {:induction false} ToldApart(a: seq<Op>, b: seq<Op>, key: string, now: Instant, limit: Backoff.u32, window: nat) returns (more: seq<Op>)
    requires Held(a, key, now, limit, window) < Held(b, key, now, limit, window) && window > 0
    ensures OrderedFrom(more + [Check(key, now)], now) && UpTo(more, now) && AllChecks(more) && Differ(a + more, b + more, key, now, limit, window)
    decreases limit - Held(b, key, now, limit, window)
  {
    var op := Check(key, now);
    Full(a, b, key, now, limit, window);
    if Held(b, key, now, limit, window) == limit {
      more := [];
      Regroup(a, [], []);
      Regroup(b, [], []);
    } else {
      FillOne(a, key, now, limit, window);
      FillOne(b, key, now, limit, window);
      var rest := ToldApart(a + [op], b + [op], key, now, limit, window);
      more := [op] + rest;
      Regroup(a, [op], rest);
      Regroup(b, [op], rest);
      ConsAll(op, rest, now);
    }
  }

  /** A prune shows exactly when the last hit of the key has expired and an
      earlier one has not, which ordered readings rule out: it then forgets
      live hits, and later checks are accepted that would have been refused. */
  lemma PruneShowsExactly(ops: seq<Op>, key: string, clock: Instant, limit: Backoff.u32, window: nat)
    ensures var d := DequeFor(ops, key, limit, window);
      PruneHidden(ops, key, clock, limit, window)
      <==> !(d != [] && Since(clock, d[|d| - 1]) >= window && exists i :: 0 <= i < |d| && Since(clock, d[i]) < window)
  {
    var d, pruned := DequeFor(ops, key, limit, window), ops + [Prune(clock)];
    OneOp(ops, Prune(clock), key, limit, window);
    DropIsSuffix(d, clock, window);
    if d != [] && Since(clock, d[|d| - 1]) >= window && exists i :: 0 <= i < |d| && Since(clock, d[i]) < window {
      var i :| 0 <= i < |d| && Since(clock, d[i]) < window;
      DropStops(d, i, clock, window);
      var more := ToldApart(pruned, ops, key, clock, limit, window);
      assert !Alike(pruned + more, ops + more, key, clock, limit, window);
    } else {
      forall more: seq<Op>, now: Instant | OrderedFrom(more + [Check(key, now)], clock) && AllChecks(more)
        ensures Alike(ops + [Prune(clock)] + more, ops + more, key, now, limit, window)
      {
        Front(more, Check(key, now), clock);
        SameKept(pruned, ops, more, key, clock, now, limit, window);
        Answer(pruned + more, key, now, limit, window);
        Answer(ops + more, key, now, limit, window);
      }
    }
  }
}
