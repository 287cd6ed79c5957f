/** q's per-key sliding-window limiter: a map of deques that forgets expired
    hits, shown to answer as an unbounded log of accepted hits would. */
module RateLimit {
  import opened Common
  import Backoff

  // Readings of the monotonic clock.
  type Instant = int
  type Hits = map<string, seq<Instant>>

  /** `Instant::duration_since`, which saturates at zero. */
  function Since(now: Instant, earlier: Instant): nat {
    if earlier <= now then now - earlier else 0
  }

  function DropExpired(d: seq<Instant>, now: Instant, window: nat): seq<Instant> {
    if d != [] && Since(now, d[0]) >= window then DropExpired(d[1..], now, window) else d
  }

  /** `as u32`: the low 32 bits. */
  function AsU32(n: nat): Backoff.u32 {
    if n < Backoff.TWO_32 then n else n % Backoff.TWO_32
  }

  function Deque(hits: Hits, key: string): seq<Instant> {
    if key in hits then hits[key] else []
  }

  function Accepts(hits: Hits, key: string, now: Instant, limit: Backoff.u32, window: nat): bool {
    AsU32(|DropExpired(Deque(hits, key), now, window)|) < limit
  }

  function AfterCheck(hits: Hits, key: string, now: Instant, limit: Backoff.u32, window: nat): Hits {
    var live := DropExpired(Deque(hits, key), now, window);
    if Accepts(hits, key, now, limit, window) then
      var pushed := hits[key := live + [now]];
      map k | k in pushed && pushed[k] != [] :: pushed[k]
    else
      hits[key := live]
  }

  function AfterPrune(hits: Hits, now: Instant, window: nat): Hits {
    map k | k in hits && hits[k] != [] && Since(now, hits[k][|hits[k]| - 1]) < window :: hits[k]
  }

  /** A hit of the window that ends now, or one that is still to come. */
  predicate HeldAt(hit: Instant, now: Instant, window: nat) {
    if hit <= now then now - hit < window else window > 0
  }

  class RateLimiter {
    const limit: Backoff.u32
    const window: nat
    var hits: Hits

    constructor (limit: Backoff.u32, window: nat)
      ensures this.limit == limit && this.window == window && hits == map[]
    {
      this.limit, this.window := limit, window;
      hits := map[];
    }

    /** `now` is the clock reading taken on entry. */
    method Check(key: string, now: Instant) returns (ok: bool)
      modifies this`hits
      ensures ok == Accepts(old(hits), key, now, limit, window)
      ensures hits == AfterCheck(old(hits), key, now, limit, window)
    {
      var deque := if key in hits then hits[key] else [];
      while deque != []
        invariant DropExpired(deque, now, window) == DropExpired(Deque(old(hits), key), now, window)
        decreases |deque|
      {
        if Since(now, deque[0]) >= window {
          deque := deque[1..];
        } else {
          break;
        }
      }
      hits := hits[key := deque];
      if AsU32(|deque|) >= limit {
        return false;
      }
      hits := hits[key := deque + [now]];
      hits := map k | k in hits && hits[k] != [] :: hits[k];
      return true;
    }

    method Prune(now: Instant)
      modifies this`hits
      ensures hits == AfterPrune(old(hits), now, window)
      ensures forall k :: k in hits <==> k in old(hits) && old(hits)[k] != [] && HeldAt(old(hits)[k][|old(hits)[k]| - 1], now, window)
      ensures forall k | k in hits :: hits[k] == old(hits)[k]
    {
      hits := map k | k in hits && hits[k] != [] && Since(now, hits[k][|hits[k]| - 1]) < window :: hits[k];
    }
  }

  // -------------------------------------------------------------- the simple form

  datatype Hit = Hit(key: string, at: Instant)
  datatype Op = Check(key: string, now: Instant) | Prune(now: Instant)

  /** The accepted hits of one key, oldest first. */
  ghost function Times(log: seq<Hit>, key: string): seq<Instant> {
    if log == [] then []
    else
      var n := |log| - 1;
      Times(log[..n], key) + if log[n].key == key then [log[n].at] else []
  }

  /** How many of `ts` lie in `(now - window, now]`. */
  ghost function Live(ts: seq<Instant>, now: Instant, window: nat): nat {
    if ts == [] then 0
    else
      var n := |ts| - 1;
      Live(ts[..n], now, window) + if now - window < ts[n] <= now then 1 else 0
  }

  /** The documented rule: fewer than `limit` accepted hits in the window. */
  ghost predicate Allowed(log: seq<Hit>, key: string, now: Instant, limit: Backoff.u32, window: nat) {
    Live(Times(log, key), now, window) < limit
  }

  ghost function NextLog(log: seq<Hit>, op: Op, limit: Backoff.u32, window: nat): seq<Hit> {
    match op
    case Check(key, now) => if Allowed(log, key, now, limit, window) then log + [Hit(key, now)] else log
    case Prune(_) => log
  }

  /** The log after a sequence of operations, by the documented rule alone. */
  ghost function Log(ops: seq<Op>, limit: Backoff.u32, window: nat): seq<Hit> {
    if ops == [] then []
    else NextLog(Log(ops[..|ops| - 1], limit, window), ops[|ops| - 1], limit, window)
  }

  ghost function NextTable(hits: Hits, op: Op, limit: Backoff.u32, window: nat): Hits {
    match op
    case Check(key, now) => AfterCheck(hits, key, now, limit, window)
    case Prune(now) => AfterPrune(hits, now, window)
  }

  /** The limiter's map after the same operations. */
  ghost function Table(ops: seq<Op>, limit: Backoff.u32, window: nat): Hits {
    if ops == [] then map[]
    else NextTable(Table(ops[..|ops| - 1], limit, window), ops[|ops| - 1], limit, window)
  }

  /** Clock readings ordered as the operations took the lock. */
  ghost predicate Ordered(ops: seq<Op>) {
    forall i, j | 0 <= i < j < |ops| :: ops[i].now <= ops[j].now
  }

  ghost predicate Sorted(ts: seq<Instant>) {
    forall i, j | 0 <= i < j < |ts| :: ts[i] <= ts[j]
  }

  /** A deque holds the log of its key, short of hits that have expired. */
  ghost predicate Tracks(d: seq<Instant>, ts: seq<Instant>, clock: Instant, limit: nat, window: nat) {
    && |d| <= limit && |d| <= |ts|
    && d == ts[|ts| - |d|..]
    && Sorted(ts)
    && (forall i | 0 <= i < |ts| :: ts[i] <= clock)
    && (forall i | 0 <= i < |ts| - |d| :: clock - ts[i] >= window)
  }

  /** No `limit + 1` accepted hits fit into one window. */
  ghost predicate Spaced(ts: seq<Instant>, limit: nat, window: nat) {
    forall i, j | 0 <= i && i + limit <= j < |ts| :: ts[j] - ts[i] >= window
  }

  // ------------------------------------------------------------------- the proof

  lemma {:induction false} DropKeepsTracking(d: seq<Instant>, ts: seq<Instant>, clock: Instant, now: Instant, limit: nat, window: nat)
    requires Tracks(d, ts, clock, limit, window) && clock <= now
    ensures Tracks(DropExpired(d, now, window), ts, now, limit, window)
    ensures Live(ts, now, window) == |DropExpired(d, now, window)|
    decreases |d|
  {
    if d != [] && Since(now, d[0]) >= window {
      assert d[0] == ts[|ts| - |d|];
      assert d[1..] == ts[|ts| - |d[1..]|..];
      DropOne(d, ts, clock, now, limit, window);
      DropKeepsTracking(d[1..], ts, now, now, limit, window);
    } else {
      if d != [] { assert d[0] == ts[|ts| - |d|]; }
      LiveSuffix(ts, |ts| - |d|, now, window);
    }
  }

  lemma DropOne(d: seq<Instant>, ts: seq<Instant>, clock: Instant, now: Instant, limit: nat, window: nat)
    requires Tracks(d, ts, clock, limit, window) && clock <= now
    requires d != [] && Since(now, d[0]) >= window
    ensures Tracks(d[1..], ts, now, limit, window)
  {
    assert d[0] == ts[|ts| - |d|];
  }

  lemma {:induction false} LiveSuffix(ts: seq<Instant>, from: nat, now: Instant, window: nat)
    requires from <= |ts|
    requires forall i | 0 <= i < |ts| :: ts[i] <= now
    requires forall i | 0 <= i < from :: now - ts[i] >= window
    requires forall i | from <= i < |ts| :: now - ts[i] < window
    ensures Live(ts, now, window) == |ts| - from
    decreases |ts|
  {
    if ts != [] {
      var n := |ts| - 1;
      LiveSuffix(ts[..n], Min(from, n), now, window);
    }
  }

  lemma TimesSnoc(log: seq<Hit>, h: Hit, key: string)
    ensures Times(log + [h], key) == Times(log, key) + if h.key == key then [h.at] else []
  {
    assert (log + [h])[..|log|] == log;
  }

  /** The limiter's map and the log agree on one key. */
  ghost predicate Agree(hits: Hits, log: seq<Hit>, clock: Instant, limit: nat, window: nat, key: string) {
    Tracks(Deque(hits, key), Times(log, key), clock, limit, window) && Spaced(Times(log, key), limit, window)
  }

  /** Every deque tracks its log and every log stays spaced. */
  lemma {:induction false} Coupled(ops: seq<Op>, limit: Backoff.u32, window: nat, clock: Instant, key: string)
    requires Ordered(ops) && forall i | 0 <= i < |ops| :: ops[i].now <= clock
    ensures Agree(Table(ops, limit, window), Log(ops, limit, window), clock, limit, window, key)
    decreases |ops|
  {
    if ops != [] {
      var n := |ops| - 1;
      var before, op := ops[..n], ops[n];
      Coupled(before, limit, window, op.now, key);
      var hits, log := Table(before, limit, window), Log(before, limit, window);
      AgreeStep(hits, log, op, limit, window, key);
      AgreeLater(NextTable(hits, op, limit, window), NextLog(log, op, limit, window), op.now, clock, limit, window, key);
    }
  }

  lemma AgreeLater(hits: Hits, log: seq<Hit>, now: Instant, clock: Instant, limit: nat, window: nat, key: string)
    requires Agree(hits, log, now, limit, window, key) && now <= clock
    ensures Agree(hits, log, clock, limit, window, key)
  {
  }

  lemma AgreeStep(hits: Hits, log: seq<Hit>, op: Op, limit: Backoff.u32, window: nat, key: string)
    requires Agree(hits, log, op.now, limit, window, key)
    ensures Agree(NextTable(hits, op, limit, window), NextLog(log, op, limit, window), op.now, limit, window, key)
  {
    match op
    case Prune(now) => PruneStep(hits, Times(log, key), now, limit, window, key);
    case Check(k, now) =>
      if k == key {
        AgreeChecked(hits, log, now, limit, window, key);
      } else {
        AgreeUnchecked(hits, log, k, now, limit, window, key);
      }
  }

  lemma AgreeChecked(hits: Hits, log: seq<Hit>, now: Instant, limit: Backoff.u32, window: nat, key: string)
    requires Agree(hits, log, now, limit, window, key)
    ensures Agree(AfterCheck(hits, key, now, limit, window), NextLog(log, Check(key, now), limit, window), now, limit, window, key)
  {
    TimesSnoc(log, Hit(key, now), key);
    CheckStep(hits, Times(log, key), now, limit, window, key);
  }

  lemma AgreeUnchecked(hits: Hits, log: seq<Hit>, checked: string, now: Instant, limit: Backoff.u32, window: nat, key: string)
    requires Agree(hits, log, now, limit, window, key) && checked != key
    ensures Agree(AfterCheck(hits, checked, now, limit, window), NextLog(log, Check(checked, now), limit, window), now, limit, window, key)
  {
    TimesSnoc(log, Hit(checked, now), key);
    CheckDeques(hits, checked, now, limit, window, key);
    AgreeSame(hits, log, AfterCheck(hits, checked, now, limit, window), NextLog(log, Check(checked, now), limit, window), now, limit, window, key);
  }

  lemma AgreeSame(hits: Hits, log: seq<Hit>, hits': Hits, log': seq<Hit>, now: Instant, limit: nat, window: nat, key: string)
    requires Agree(hits, log, now, limit, window, key)
    requires Deque(hits', key) == Deque(hits, key) && Times(log', key) == Times(log, key)
    ensures Agree(hits', log', now, limit, window, key)
  {
  }

  lemma PruneStep(hits: Hits, ts: seq<Instant>, now: Instant, limit: nat, window: nat, key: string)
    requires Tracks(Deque(hits, key), ts, now, limit, window)
    ensures Tracks(Deque(AfterPrune(hits, now, window), key), ts, now, limit, window)
  {
    var d := Deque(hits, key);
    if d != [] && Since(now, d[|d| - 1]) >= window {
      assert d[|d| - 1] == ts[|ts| - 1];
    }
  }

  /** What a check does to its own deque and to every other one. */
  lemma CheckDeques(hits: Hits, checked: string, now: Instant, limit: Backoff.u32, window: nat, key: string)
    ensures var d := DropExpired(Deque(hits, checked), now, window);
      Deque(AfterCheck(hits, checked, now, limit, window), key) ==
      if key != checked then Deque(hits, key)
      else if Accepts(hits, checked, now, limit, window) then d + [now]
      else d
  {
  }

  /** An accepted check clears the map of empty deques; a refused one stores its own. */
  lemma CheckKeys(hits: Hits, checked: string, now: Instant, limit: Backoff.u32, window: nat)
    ensures var hits' := AfterCheck(hits, checked, now, limit, window);
      if Accepts(hits, checked, now, limit, window) then
        checked in hits' && hits'.Keys <= hits.Keys + {checked} && forall k | k in hits' :: hits'[k] != []
      else
        hits'.Keys == hits.Keys + {checked}
  {
  }

  lemma CheckAnswer(hits: Hits, ts: seq<Instant>, now: Instant, limit: Backoff.u32, window: nat, key: string)
    requires Tracks(Deque(hits, key), ts, now, limit, window)
    ensures Accepts(hits, key, now, limit, window) <==> Live(ts, now, window) < limit
    ensures |DropExpired(Deque(hits, key), now, window)| < limit <==> Live(ts, now, window) < limit
  {
    DropKeepsTracking(Deque(hits, key), ts, now, now, limit, window);
  }

  lemma CheckStep(hits: Hits, ts: seq<Instant>, now: Instant, limit: Backoff.u32, window: nat, key: string)
    requires Tracks(Deque(hits, key), ts, now, limit, window) && Spaced(ts, limit, window)
    ensures var d := Deque(AfterCheck(hits, key, now, limit, window), key);
      var ts' := if Live(ts, now, window) < limit then ts + [now] else ts;
      Tracks(d, ts', now, limit, window) && Spaced(ts', limit, window)
  {
    CheckDeques(hits, key, now, limit, window, key);
    CheckAnswer(hits, ts, now, limit, window, key);
    var live := DropExpired(Deque(hits, key), now, window);
    assert Tracks(live, ts, now, limit, window) by {
      DropKeepsTracking(Deque(hits, key), ts, now, now, limit, window);
    }
    if |live| < limit {
      Push(live, ts, now, limit, window);
    }
  }

  lemma Push(live: seq<Instant>, ts: seq<Instant>, now: Instant, limit: nat, window: nat)
    requires Tracks(live, ts, now, limit, window) && Spaced(ts, limit, window)
    requires |live| < limit
    ensures Tracks(live + [now], ts + [now], now, limit, window)
    ensures Spaced(ts + [now], limit, window)
  {
  }

  lemma OrderedFront(ops: seq<Op>, op: Op)
    requires Ordered(ops + [op])
    ensures Ordered(ops) && forall i | 0 <= i < |ops| :: ops[i].now <= op.now
  {
    var all := ops + [op];
    assert all[|ops|] == op && forall i | 0 <= i < |ops| :: all[i] == ops[i];
  }

  /** Refinement: whatever checks and prunes came before, the limiter accepts
      exactly when the documented rule does. */
  lemma CheckAnswersByTheLog(ops: seq<Op>, key: string, now: Instant, limit: Backoff.u32, window: nat)
    requires Ordered(ops + [Check(key, now)])
    ensures Accepts(Table(ops, limit, window), key, now, limit, window)
      <==> Allowed(Log(ops, limit, window), key, now, limit, window)
  {
    OrderedFront(ops, Check(key, now));
    Coupled(ops, limit, window, now, key);
    CheckAnswer(Table(ops, limit, window), Times(Log(ops, limit, window), key), now, limit, window, key);
  }

  /** Every window `(t - window, t]` holds at most `limit` accepted hits of a key,
      and no deque ever grows beyond `limit` or out of order. */
  lemma WindowHoldsLimit(ops: seq<Op>, key: string, t: Instant, limit: Backoff.u32, window: nat)
    requires Ordered(ops)
    ensures var ts := Times(Log(ops, limit, window), key);
      |set i | 0 <= i < |ts| && t - window < ts[i] <= t| <= limit
    ensures Sorted(Deque(Table(ops, limit, window), key)) && |Deque(Table(ops, limit, window), key)| <= limit
  {
    var clock := if ops == [] then t else ops[|ops| - 1].now;
    Coupled(ops, limit, window, clock, key);
    var ts := Times(Log(ops, limit, window), key);
    var inside := set i | 0 <= i < |ts| && t - window < ts[i] <= t;
    if inside != {} {
      var first := Least(inside);
      RangeSize(inside, first, limit);
    }
  }

  ghost function OnlyChecks(ops: seq<Op>): seq<Op> {
    if ops == [] then []
    else
      var n := |ops| - 1;
      OnlyChecks(ops[..n]) + if ops[n].Check? then [ops[n]] else []
  }

  /** Pruning, at any point and any number of times, changes no later answer. */
  lemma PruneIsInvisible(ops: seq<Op>, key: string, now: Instant, limit: Backoff.u32, window: nat)
    requires Ordered(ops + [Check(key, now)])
    ensures Accepts(Table(ops, limit, window), key, now, limit, window)
      <==> Accepts(Table(OnlyChecks(ops), limit, window), key, now, limit, window)
  {
    OrderedFront(ops, Check(key, now));
    CheckAnswersByTheLog(ops, key, now, limit, window);
    SameLog(ops, limit, window, now);
    CheckAnswersByTheLog(OnlyChecks(ops), key, now, limit, window);
  }

  lemma {:induction false} SameLog(ops: seq<Op>, limit: Backoff.u32, window: nat, now: Instant)
    requires Ordered(ops) && forall i | 0 <= i < |ops| :: ops[i].now <= now
    ensures Log(ops, limit, window) == Log(OnlyChecks(ops), limit, window)
    ensures Ordered(OnlyChecks(ops)) && forall i | 0 <= i < |OnlyChecks(ops)| :: OnlyChecks(ops)[i].now <= now
    decreases |ops|
  {
    if ops != [] {
      var n := |ops| - 1;
      var op := ops[n];
      SameLog(ops[..n], limit, window, op.now);
      var kept := OnlyChecks(ops[..n]);
      if op.Check? {
        assert OnlyChecks(ops) == kept + [op];
        assert (kept + [op])[..|kept|] == kept;
      } else {
        assert OnlyChecks(ops) == kept;
      }
    }
  }
}
