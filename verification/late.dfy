/** q's limiter under readings in any order: the answer of a late check itself,
    and every later answer, for every history of checks and prunes. */
module Late {
  import opened Common
  import opened RateLimit
  import opened Readings
  import Backoff

  // ------------------------------------------------------ the late check's answer

  /** How many of `d` are younger than the reading. */
  ghost function Younger(d: seq<Instant>, reading: Instant): nat {
    if d == [] then 0 else Younger(d[..|d| - 1], reading) + if d[|d| - 1] > reading then 1 else 0
  }

  /** Held hits that the reading has not seen yet. */
  ghost function YoungerFor(ops: seq<Op>, key: string, reading: Instant, limit: Backoff.u32, window: nat): nat {
    Younger(DequeFor(ops, key, limit, window), reading)
  }

  /** Forgotten hits that lie in the window that ends at the reading. */
  ghost function EarlyFor(ops: seq<Op>, key: string, reading: Instant, limit: Backoff.u32, window: nat): nat {
    var d, ts := DequeFor(ops, key, limit, window), PushedFor(ops, key, limit, window);
    Live(ts[..Max(0, |ts| - |d|)], reading, window)
  }

  lemma {:induction false} LiveAppend(a: seq<Instant>, b: seq<Instant>, now: Instant, window: nat)
    ensures Live(a + b, now, window) == Live(a, now, window) + Live(b, now, window)
    decreases |b|
  {
    if b == [] {
      assert a + b == a;
    } else {
      assert (a + b)[..|a + b| - 1] == a + b[..|b| - 1];
      LiveAppend(a, b[..|b| - 1], now, window);
    }
  }

  lemma {:induction false} CountFrom(d: seq<Instant>, from: nat, reading: Instant, window: nat)
    requires from <= |d|
    requires forall i | 0 <= i < from :: d[i] <= reading - window
    requires forall i | from <= i < |d| :: reading - window < d[i]
    ensures Live(d, reading, window) + Younger(d, reading) == |d| - from
    decreases |d|
  {
    if d != [] { CountFrom(d[..|d| - 1], Min(from, |d| - 1), reading, window); }
  }

  /** A sorted deque holds its hits in the window and the younger ones. */
  lemma SortedHeld(d: seq<Instant>, reading: Instant, window: nat)
    requires Sorted(d) && window > 0
    ensures |DropExpired(d, reading, window)| == Live(d, reading, window) + Younger(d, reading)
  {
    DropIsSuffix(d, reading, window);
    var from := |d| - |DropExpired(d, reading, window)|;
    assert from < |d| ==> Since(reading, d[from]) < window;
    CountFrom(d, from, reading, window);
  }

  lemma HeldAndForgotten(forgotten: seq<Instant>, d: seq<Instant>, reading: Instant, window: nat)
    requires Sorted(d) && window > 0
    ensures |DropExpired(d, reading, window)| + Live(forgotten, reading, window) == Live(forgotten + d, reading, window) + Younger(d, reading)
  {
    SortedHeld(d, reading, window);
    LiveAppend(forgotten, d, reading, window);
  }

  /** Ordered accepted hits: no window holds more than `limit`. */
  lemma {:induction false} SpacedLive(ts: seq<Instant>, now: Instant, limit: nat, window: nat)
    requires Sorted(ts) && Spaced(ts, limit, window)
    ensures Live(ts, now, window) <= limit
    decreases |ts|
  {
    var n := |ts| - 1;
    if |ts| <= limit {
      LiveAtMost(ts, 0, now, window);
    } else if now - window < ts[n] <= now {
      forall i | 0 <= i < n - limit + 1 ensures now - ts[i] >= window { assert ts[n] - ts[i] >= window; }
      LiveAtMost(ts, n - limit + 1, now, window);
    } else {
      SpacedLive(ts[..n], now, limit, window);
    }
  }

  lemma OrderedLive(ops: seq<Op>, key: string, now: Instant, limit: Backoff.u32, window: nat)
    requires Ordered(ops)
    ensures LiveFor(ops, key, now, limit, window) <= limit
  {
    var clock := if ops == [] then now else ops[|ops| - 1].now;
    PushedIsLog(ops, limit, window);
    Coupled(ops, limit, window, clock, key);
    SpacedLive(PushedFor(ops, key, limit, window), now, limit, window);
  }

  /** When counts decide: held and live fill up the same limit or do not. */
  lemma WrongWhen(held: nat, live: nat, younger: nat, early: nat, limit: nat)
    requires held <= limit && live <= limit && held + early == live + younger
    ensures (held < limit <==> live < limit) <==> !(held == limit && younger > early) && !(live == limit && early > younger)
  {
  }

  /** With ordered readings a deque is sorted and ends the accepted hits. */
  lemma EndsTheLog(ops: seq<Op>, key: string, limit: Backoff.u32, window: nat)
    requires Ordered(ops)
    ensures var d, ts := DequeFor(ops, key, limit, window), PushedFor(ops, key, limit, window);
      |d| <= |ts| && d == ts[|ts| - |d|..] && Sorted(d)
  {
    OrderedRemembers(ops, key, if ops == [] then 0 else ops[|ops| - 1].now, limit, window);
  }

  lemma HeldFor(ops: seq<Op>, key: string, reading: Instant, limit: Backoff.u32, window: nat)
    requires Ordered(ops) && window > 0
    ensures Held(ops, key, reading, limit, window) + EarlyFor(ops, key, reading, limit, window)
      == LiveFor(ops, key, reading, limit, window) + YoungerFor(ops, key, reading, limit, window)
  {
    EndsTheLog(ops, key, limit, window);
    var d, ts := DequeFor(ops, key, limit, window), PushedFor(ops, key, limit, window);
    var forgotten := ts[..|ts| - |d|];
    assert ts == forgotten + d;
    HeldAndForgotten(forgotten, d, reading, window);
  }

  lemma NoneFor(ops: seq<Op>, key: string, reading: Instant, limit: Backoff.u32)
    ensures Held(ops, key, reading, limit, 0) == 0 == LiveFor(ops, key, reading, limit, 0) == EarlyFor(ops, key, reading, limit, 0)
    ensures YoungerFor(ops, key, reading, limit, 0) <= limit
  {
    DequeShort(ops, key, limit, 0);
    YoungerAtMost(DequeFor(ops, key, limit, 0), reading);
    NoWindow(DequeFor(ops, key, limit, 0), PushedFor(ops, key, limit, 0), reading);
    var n := Max(0, |PushedFor(ops, key, limit, 0)| - |DequeFor(ops, key, limit, 0)|);
    NothingLive(PushedFor(ops, key, limit, 0)[..n], reading);
  }

  lemma {:induction false} YoungerAtMost(d: seq<Instant>, reading: Instant)
    ensures Younger(d, reading) <= |d|
    decreases |d|
  {
    if d != [] { YoungerAtMost(d[..|d| - 1], reading); }
  }

  /** After any ordered checks and prunes, a check with any reading is answered
      wrongly exactly when the deque is full and more of it is younger than the
      reading than was forgotten of its window (a wrong refusal), or the window
      is full and more of it was forgotten than is younger (a wrong acceptance). */
  lemma LateAnswer(ops: seq<Op>, key: string, reading: Instant, limit: Backoff.u32, window: nat)
    requires Ordered(ops)
    ensures var held, live := Held(ops, key, reading, limit, window), LiveFor(ops, key, reading, limit, window);
      var younger, early := YoungerFor(ops, key, reading, limit, window), EarlyFor(ops, key, reading, limit, window);
      ByTheRule(ops, key, reading, limit, window) <==> !(held == limit && younger > early) && !(live == limit && early > younger)
  {
    Answer(ops, key, reading, limit, window);
    if window == 0 {
      NoneFor(ops, key, reading, limit);
    } else {
      HeldFor(ops, key, reading, limit, window);
      OrderedLive(ops, key, reading, limit, window);
      WrongWhen(Held(ops, key, reading, limit, window), LiveFor(ops, key, reading, limit, window),
        YoungerFor(ops, key, reading, limit, window), EarlyFor(ops, key, reading, limit, window), limit);
    }
  }

  /** An empty window holds nothing. */
  lemma NoWindow(d: seq<Instant>, ts: seq<Instant>, reading: Instant)
    ensures DropExpired(d, reading, 0) == [] && Live(ts, reading, 0) == 0
  {
    DropIsSuffix(d, reading, 0);
    NothingLive(ts, reading);
  }

  lemma {:induction false} NothingLive(ts: seq<Instant>, reading: Instant)
    ensures Live(ts, reading, 0) == 0
  {
    if ts != [] { NothingLive(ts[..|ts| - 1], reading); }
  }

  lemma OneCheck(key: string, at: Instant, limit: Backoff.u32, window: nat)
    requires limit >= 1
    ensures DequeFor([Check(key, at)], key, limit, window) == [at] == PushedFor([Check(key, at)], key, limit, window)
  {
    OneOp([], Check(key, at), key, limit, window);
    assert [] + [Check(key, at)] == [Check(key, at)] && [] + [at] == [at];
  }

  lemma CheckAndPrune(key: string, at: Instant, prune: Instant, window: nat)
    requires at + window <= prune
    ensures var ops := [Check(key, at), Prune(prune)];
      Ordered(ops) && DequeFor(ops, key, 1, window) == [] && PushedFor(ops, key, 1, window) == [at]
  {
    OneCheck(key, at, 1, window);
    var ops := [Check(key, at)];
    assert Pruned([at], prune, window) == [];
    OneOp(ops, Prune(prune), key, 1, window);
    assert ops + [Prune(prune)] == [Check(key, at), Prune(prune)];
  }

  /** Limit one, a hit at `at`, and a prune that read a later instant and took
      the lock first: a check whose reading is still in the window of the hit is
      accepted against the rule, and all answers after it are right again. */
  lemma PruneFirstAdmits(key: string, at: Instant, reading: Instant, prune: Instant, window: nat)
    requires at <= reading < at + window <= prune
    ensures var ops := [Check(key, at), Prune(prune)];
      && Ordered(ops) && Accepts(Table(ops, 1, window), key, reading, 1, window) && !ByTheRule(ops, key, reading, 1, window)
      && RightFrom(ops + [Check(key, reading)], key, prune, 1, window)
  {
    var ops := [Check(key, at), Prune(prune)];
    CheckAndPrune(key, at, prune, window);
    assert [at][..0] == [] && Live([at], reading, window) == 1;
    Answer(ops, key, reading, 1, window);
    LateReading(ops, key, reading, prune, 1, window);
  }

  /** Limit one and a hit that the reading has not seen: the check is refused
      though its window is empty, and nothing is pushed. */
  lemma UnseenHitRefuses(key: string, at: Instant, reading: Instant, window: nat)
    requires reading < at && window > 0
    ensures var ops := [Check(key, at)];
      && Ordered(ops) && !Accepts(Table(ops, 1, window), key, reading, 1, window) && !ByTheRule(ops, key, reading, 1, window)
      && Sorted(DequeFor(ops + [Check(key, reading)], key, 1, window))
  {
    var ops := [Check(key, at)];
    OneCheck(key, at, 1, window);
    assert [at][..0] == [] && Live([at], reading, window) == 0;
    assert DropExpired([at], reading, window) == [at];
    Answer(ops, key, reading, 1, window);
    OneOp(ops, Check(key, reading), key, 1, window);
  }

  // --------------------------------------------------- later answers, any history

  /** For each hit, the youngest up to it: until that expires it stays held. */
  function Peaks(k: seq<Instant>): (p: seq<Instant>)
    ensures |p| == |k|
  {
    if k == [] then []
    else
      var front := Peaks(k[..|k| - 1]);
      front + [if front == [] then k[|k| - 1] else Max(front[|front| - 1], k[|k| - 1])]
  }

  /** How many of `s` are above `v`. */
  ghost function Above(s: seq<Instant>, v: Instant): nat {
    if s == [] then 0 else Above(s[..|s| - 1], v) + if s[|s| - 1] > v then 1 else 0
  }

  function Recent(ts: seq<Instant>, v: Instant): seq<Instant> {
    if ts == [] then [] else Recent(ts[..|ts| - 1], v) + if ts[|ts| - 1] > v then [ts[|ts| - 1]] else []
  }

  function Insert(s: seq<Instant>, x: Instant): (r: seq<Instant>)
    ensures |r| == |s| + 1
  {
    if s == [] || s[|s| - 1] <= x then s + [x] else Insert(s[..|s| - 1], x) + [s[|s| - 1]]
  }

  function Ascending(ts: seq<Instant>): (r: seq<Instant>)
    ensures |r| == |ts|
  {
    if ts == [] then [] else Insert(Ascending(ts[..|ts| - 1]), ts[|ts| - 1])
  }

  /** The `n` youngest of ascending hits. */
  function Top(s: seq<Instant>, n: nat): seq<Instant> {
    if |s| <= n then s else s[|s| - n..]
  }

  /** The youngest hits after `c`, at most `limit`, in ascending order. */
  function YoungestAfter(ts: seq<Instant>, c: Instant, limit: nat): seq<Instant> {
    Top(Ascending(Recent(ts, c)), limit)
  }

  ghost predicate EndsYoungest(k: seq<Instant>) {
    forall i | 0 <= i < |k| :: k[i] <= k[|k| - 1]
  }

  /** The held hits stand for the youngest live ones, and the last is the youngest. */
  ghost predicate Represents(d: seq<Instant>, ts: seq<Instant>, clock: Instant, limit: nat, window: nat) {
    var k := DropExpired(d, clock, window);
    Peaks(k) == YoungestAfter(ts, clock - window, limit) && EndsYoungest(k)
  }

  // counting

  ghost predicate AllUpTo(s: seq<Instant>, b: Instant) {
    forall i | 0 <= i < |s| :: s[i] <= b
  }

  ghost predicate AllAbove(s: seq<Instant>, c: Instant) {
    forall i | 0 <= i < |s| :: s[i] > c
  }

  lemma {:induction false} PeaksBound(k: seq<Instant>)
    ensures forall i, j | 0 <= i <= j < |k| :: k[i] <= Peaks(k)[j]
    decreases |k|
  {
    if k != [] {
      var n := |k| - 1;
      PeaksBound(k[..n]);
      assert forall j | 0 <= j < n :: Peaks(k)[j] == Peaks(k[..n])[j];
    }
  }

  lemma {:induction false} PeaksSorted(k: seq<Instant>)
    ensures Sorted(Peaks(k))
    decreases |k|
  {
    if k != [] {
      var front := Peaks(k[..|k| - 1]);
      PeaksSorted(k[..|k| - 1]);
      SortedSnoc(front, Peaks(k)[|front|]);
    }
  }

  lemma {:induction false} PeakUpTo(k: seq<Instant>, j: nat, v: Instant)
    requires j < |k| && AllUpTo(k[..j + 1], v)
    ensures Peaks(k)[j] <= v
    decreases |k|
  {
    var n := |k| - 1;
    assert k[..j + 1][j] == k[j];
    if n > 0 {
      var i := Min(j, n - 1);
      assert k[..n][..i + 1] == k[..j + 1][..i + 1];
      PeakUpTo(k[..n], i, v);
    }
  }

  lemma {:induction false} AboveFrom(s: seq<Instant>, from: nat, v: Instant)
    requires from <= |s| && AllUpTo(s[..from], v) && AllAbove(s[from..], v)
    ensures Above(s, v) == |s| - from
    decreases |s|
  {
    if s != [] {
      var n, i := |s| - 1, Min(from, |s| - 1);
      assert s[..n][..i] == s[..from][..i] && s[..n][i..] == s[i..n];
      if i == from {
        assert s[i..][n - i] == s[n] && s[i..n] == s[i..][..n - i];
      } else {
        assert s[..from][n] == s[n];
      }
      AboveFrom(s[..n], i, v);
    }
  }

  lemma PeaksSplit(k: seq<Instant>, from: nat, v: Instant)
    requires from <= |k| && AllUpTo(k[..from], v) && (from < |k| ==> k[from] > v)
    ensures AllUpTo(Peaks(k)[..from], v) && AllAbove(Peaks(k)[from..], v)
  {
    PeaksBound(k);
    forall i | 0 <= i < from ensures Peaks(k)[i] <= v {
      assert k[..from][..i + 1] == k[..i + 1];
      PeakUpTo(k, i, v);
    }
    forall i | from <= i < |k| ensures Peaks(k)[i] > v { assert k[from] <= Peaks(k)[i]; }
  }

  /** A deque holds at `t` as many hits as there are peaks in the window. */
  lemma HeldIsAbove(k: seq<Instant>, t: Instant, window: nat)
    requires window > 0 && AllUpTo(k, t)
    ensures |DropExpired(k, t, window)| == Above(Peaks(k), t - window)
  {
    DropIsSuffix(k, t, window);
    var from := |k| - |DropExpired(k, t, window)|;
    PeaksSplit(k, from, t - window);
    AboveFrom(Peaks(k), from, t - window);
  }

  lemma {:induction false} LiveIsAbove(ts: seq<Instant>, t: Instant, window: nat)
    requires AllUpTo(ts, t)
    ensures Live(ts, t, window) == Above(ts, t - window)
    decreases |ts|
  {
    if ts != [] { LiveIsAbove(ts[..|ts| - 1], t, window); }
  }

  lemma AboveSnoc(s: seq<Instant>, x: Instant, v: Instant)
    ensures Above(s + [x], v) == Above(s, v) + if x > v then 1 else 0
  {
    assert (s + [x])[..|s|] == s;
  }

  lemma {:induction false} RecentAbove(ts: seq<Instant>, c: Instant)
    ensures AllAbove(Recent(ts, c), c)
    decreases |ts|
  {
    if ts != [] { RecentAbove(ts[..|ts| - 1], c); }
  }

  lemma {:induction false} RecentCounts(ts: seq<Instant>, c: Instant, v: Instant)
    requires c <= v
    ensures Above(Recent(ts, c), v) == Above(ts, v)
    decreases |ts|
  {
    if ts != [] {
      var n := |ts| - 1;
      RecentCounts(ts[..n], c, v);
      if ts[n] > c {
        AboveSnoc(Recent(ts[..n], c), ts[n], v);
      } else {
        assert Recent(ts, c) == Recent(ts[..n], c);
      }
    }
  }

  lemma {:induction false} InsertUpTo(s: seq<Instant>, x: Instant, b: Instant)
    requires AllUpTo(s, b) && x <= b
    ensures AllUpTo(Insert(s, x), b)
    decreases |s|
  {
    if s != [] && s[|s| - 1] > x { InsertUpTo(s[..|s| - 1], x, b); }
  }

  lemma {:induction false} InsertSorted(s: seq<Instant>, x: Instant)
    requires Sorted(s)
    ensures Sorted(Insert(s, x))
    decreases |s|
  {
    if s == [] || s[|s| - 1] <= x {
      SortedSnoc(s, x);
    } else {
      var n := |s| - 1;
      InsertSorted(s[..n], x);
      InsertUpTo(s[..n], x, s[n]);
      SortedSnoc(Insert(s[..n], x), s[n]);
    }
  }

  lemma {:induction false} InsertAbove(s: seq<Instant>, x: Instant, c: Instant)
    requires AllAbove(s, c) && x > c
    ensures AllAbove(Insert(s, x), c)
    decreases |s|
  {
    if s != [] && s[|s| - 1] > x { InsertAbove(s[..|s| - 1], x, c); }
  }

  lemma {:induction false} InsertCounts(s: seq<Instant>, x: Instant, v: Instant)
    ensures Above(Insert(s, x), v) == Above(s, v) + if x > v then 1 else 0
    decreases |s|
  {
    if s == [] || s[|s| - 1] <= x {
      AboveSnoc(s, x, v);
    } else {
      InsertCounts(s[..|s| - 1], x, v);
      AboveSnoc(Insert(s[..|s| - 1], x), s[|s| - 1], v);
    }
  }

  lemma {:induction false} AscendingCounts(ts: seq<Instant>, v: Instant)
    ensures Above(Ascending(ts), v) == Above(ts, v)
    decreases |ts|
  {
    if ts != [] {
      AscendingCounts(ts[..|ts| - 1], v);
      InsertCounts(Ascending(ts[..|ts| - 1]), ts[|ts| - 1], v);
    }
  }

  lemma {:induction false} AscendingSorted(ts: seq<Instant>, c: Instant)
    requires AllAbove(ts, c)
    ensures Sorted(Ascending(ts)) && AllAbove(Ascending(ts), c)
    decreases |ts|
  {
    if ts != [] {
      AscendingSorted(ts[..|ts| - 1], c);
      InsertSorted(Ascending(ts[..|ts| - 1]), ts[|ts| - 1]);
      InsertAbove(Ascending(ts[..|ts| - 1]), ts[|ts| - 1], c);
    }
  }

  lemma {:induction false} SortedSplit(s: seq<Instant>, v: Instant) returns (from: nat)
    requires Sorted(s)
    ensures from <= |s| && AllUpTo(s[..from], v) && AllAbove(s[from..], v)
    decreases |s|
  {
    if s == [] || s[|s| - 1] <= v {
      from := |s|;
    } else {
      var n := |s| - 1;
      from := SortedSplit(s[..n], v);
      assert s[..n][..from] == s[..from] && s[from..] == s[..n][from..] + [s[n]];
    }
  }

  lemma AboveRest(s: seq<Instant>, cut: nat, from: nat, v: Instant)
    requires cut <= |s| && from <= |s| && AllUpTo(s[..from], v) && AllAbove(s[from..], v)
    ensures Above(s[cut..], v) == |s| - Max(cut, from)
  {
    if cut <= from {
      assert AllUpTo(s[cut..][..from - cut], v) by { assert s[cut..][..from - cut] == s[..from][cut..]; }
      assert s[cut..][from - cut..] == s[from..];
      AboveFrom(s[cut..], from - cut, v);
    } else {
      assert AllAbove(s[cut..], v) by { assert s[cut..] == s[from..][cut - from..]; }
      AboveAll(s[cut..], v);
    }
  }

  lemma TopCounts(s: seq<Instant>, n: nat, v: Instant)
    requires Sorted(s)
    ensures Above(Top(s, n), v) == Min(Above(s, v), n)
  {
    var from := SortedSplit(s, v);
    AboveFrom(s, from, v);
    if |s| > n { AboveRest(s, |s| - n, from, v); }
  }

  lemma TopKeeps(s: seq<Instant>, n: nat, c: Instant)
    requires Sorted(s) && AllAbove(s, c)
    ensures Sorted(Top(s, n)) && AllAbove(Top(s, n), c)
  {
  }

  ghost predicate SameAbove(a: seq<Instant>, b: seq<Instant>, v: Instant) {
    Above(a, v) == Above(b, v)
  }

  /** Ascending sequences above `c` with the same counts are the same. */
  lemma {:induction false} SameCounts(a: seq<Instant>, b: seq<Instant>, c: Instant)
    requires Sorted(a) && Sorted(b) && AllAbove(a, c) && AllAbove(b, c)
    requires forall v: Instant | v >= c :: SameAbove(a, b, v)
    ensures a == b
    decreases |a|
  {
    AboveAll(a, c);
    AboveAll(b, c);
    assert SameAbove(a, b, c);
    if a != [] {
      var x, y := a[|a| - 1], b[|b| - 1];
      SameLast(a, b, c);
      var front, front' := a[..|a| - 1], b[..|b| - 1];
      assert a == front + [x] && b == front' + [x];
      forall v: Instant | v >= c ensures SameAbove(front, front', v) {
        assert SameAbove(a, b, v);
        AboveSnoc(front, x, v);
        AboveSnoc(front', x, v);
      }
      SameCounts(front, front', c);
    }
  }

  lemma AboveAll(s: seq<Instant>, c: Instant)
    requires AllAbove(s, c)
    ensures Above(s, c) == |s|
  {
    AboveFrom(s, 0, c);
  }

  lemma AboveNone(s: seq<Instant>)
    requires Sorted(s) && s != []
    ensures Above(s, s[|s| - 1]) == 0
  {
    AboveFrom(s, |s|, s[|s| - 1]);
  }

  lemma SameLast(a: seq<Instant>, b: seq<Instant>, c: Instant)
    requires Sorted(a) && Sorted(b) && a != [] && b != [] && AllAbove(a, c) && AllAbove(b, c)
    requires forall v: Instant | v >= c :: SameAbove(a, b, v)
    ensures a[|a| - 1] == b[|b| - 1]
  {
    var x, y := a[|a| - 1], b[|b| - 1];
    AboveNone(a);
    AboveNone(b);
    assert SameAbove(a, b, x) && SameAbove(a, b, y);
  }

  // what the counts decide

  /** At `t` the deque holds as many hits as are live, up to the limit. */
  ghost predicate CountsAt(d: seq<Instant>, ts: seq<Instant>, t: Instant, limit: nat, window: nat) {
    |DropExpired(d, t, window)| == Min(Live(ts, t, window), limit)
  }

  ghost predicate CountsAgree(d: seq<Instant>, ts: seq<Instant>, clock: Instant, limit: nat, window: nat) {
    forall t: Instant | clock <= t :: CountsAt(d, ts, t, limit, window)
  }

  lemma HeldByPeaks(d: seq<Instant>, clock: Instant, t: Instant, window: nat)
    requires AllUpTo(d, clock) && clock <= t && window > 0
    ensures |DropExpired(d, t, window)| == Above(Peaks(DropExpired(d, clock, window)), t - window)
  {
    DropLater(d, clock, t, window);
    DropIsSuffix(d, clock, window);
    HeldIsAbove(DropExpired(d, clock, window), t, window);
  }

  lemma YoungestCounts(ts: seq<Instant>, c: Instant, v: Instant, limit: nat)
    requires c <= v
    ensures Above(YoungestAfter(ts, c, limit), v) == Min(Above(ts, v), limit)
  {
    var recent := Recent(ts, c);
    RecentAbove(ts, c);
    RecentCounts(ts, c, v);
    AscendingSorted(recent, c);
    AscendingCounts(recent, v);
    TopCounts(Ascending(recent), limit, v);
  }

  lemma YoungestSorted(ts: seq<Instant>, c: Instant, limit: nat)
    ensures Sorted(YoungestAfter(ts, c, limit)) && AllAbove(YoungestAfter(ts, c, limit), c)
  {
    RecentAbove(ts, c);
    AscendingSorted(Recent(ts, c), c);
    TopKeeps(Ascending(Recent(ts, c)), limit, c);
  }

  /** One instant of the equivalence below. */
  lemma CountsByPeaks(d: seq<Instant>, ts: seq<Instant>, clock: Instant, t: Instant, limit: nat, window: nat)
    requires AllUpTo(d, clock) && AllUpTo(ts, clock) && clock <= t && window > 0
    ensures CountsAt(d, ts, t, limit, window)
      <==> SameAbove(Peaks(DropExpired(d, clock, window)), YoungestAfter(ts, clock - window, limit), t - window)
  {
    HeldByPeaks(d, clock, t, window);
    LiveIsAbove(ts, t, window);
    YoungestCounts(ts, clock - window, t - window, limit);
  }

  lemma CountsAgreeIff(d: seq<Instant>, ts: seq<Instant>, clock: Instant, limit: nat, window: nat)
    requires AllUpTo(d, clock) && AllUpTo(ts, clock) && window > 0
    ensures CountsAgree(d, ts, clock, limit, window) <==> Peaks(DropExpired(d, clock, window)) == YoungestAfter(ts, clock - window, limit)
  {
    var peaks, young := Peaks(DropExpired(d, clock, window)), YoungestAfter(ts, clock - window, limit);
    forall t: Instant | clock <= t ensures CountsAt(d, ts, t, limit, window) <==> SameAbove(peaks, young, t - window) {
      CountsByPeaks(d, ts, clock, t, limit, window);
    }
    if CountsAgree(d, ts, clock, limit, window) {
      forall v: Instant | v >= clock - window ensures SameAbove(peaks, young, v) {
        assert CountsAt(d, ts, v + window, limit, window);
      }
      PeaksRecent(d, clock, window);
      YoungestSorted(ts, clock - window, limit);
      SameCounts(peaks, young, clock - window);
    }
  }

  lemma PeaksRecent(d: seq<Instant>, clock: Instant, window: nat)
    requires AllUpTo(d, clock) && window > 0
    ensures var peaks := Peaks(DropExpired(d, clock, window)); Sorted(peaks) && AllAbove(peaks, clock - window)
  {
    var k := DropExpired(d, clock, window);
    DropIsSuffix(d, clock, window);
    PeaksSorted(k);
    PeaksSplit(k, 0, clock - window);
  }

  lemma {:induction false} NoneRecent(ts: seq<Instant>, clock: Instant)
    requires AllUpTo(ts, clock)
    ensures Recent(ts, clock) == []
    decreases |ts|
  {
    if ts != [] { NoneRecent(ts[..|ts| - 1], clock); }
  }

  lemma EmptyWindow(d: seq<Instant>, ts: seq<Instant>, clock: Instant, limit: nat)
    requires AllUpTo(ts, clock)
    ensures CountsAgree(d, ts, clock, limit, 0) && Represents(d, ts, clock, limit, 0)
  {
    forall t: Instant ensures CountsAt(d, ts, t, limit, 0) { NoWindow(d, ts, t); }
    NoneRecent(ts, clock);
    NoWindow(d, ts, clock);
  }

  lemma RepresentsIff(d: seq<Instant>, ts: seq<Instant>, clock: Instant, limit: nat, window: nat)
    requires AllUpTo(d, clock) && AllUpTo(ts, clock)
    ensures Represents(d, ts, clock, limit, window)
      <==> CountsAgree(d, ts, clock, limit, window) && EndsYoungest(DropExpired(d, clock, window))
  {
    if window == 0 {
      EmptyWindow(d, ts, clock, limit);
    } else {
      CountsAgreeIff(d, ts, clock, limit, window);
    }
  }

  // a deque that stands for the live hits goes on doing so

  /** What the deque of a key has at every clock from which all answers are right. */
  ghost predicate Standing(d: seq<Instant>, ts: seq<Instant>, clock: Instant, limit: nat, window: nat) {
    AllUpTo(d, clock) && AllUpTo(ts, clock) && CountsAgree(d, ts, clock, limit, window) && EndsYoungest(DropExpired(d, clock, window))
  }

  lemma StandingLater(d: seq<Instant>, ts: seq<Instant>, m: Instant, n: Instant, limit: nat, window: nat)
    requires Standing(d, ts, m, limit, window) && m <= n
    ensures Standing(d, ts, n, limit, window)
  {
    DropLater(d, m, n, window);
    EndKept(DropExpired(d, m, window), n, window);
  }

  lemma EndKept(k: seq<Instant>, n: Instant, window: nat)
    requires EndsYoungest(k)
    ensures EndsYoungest(DropExpired(k, n, window))
  {
    DropIsSuffix(k, n, window);
  }

  /** Hits only expire as time goes on. */
  lemma {:induction false} LiveFalls(ts: seq<Instant>, m: Instant, n: Instant, window: nat)
    requires AllUpTo(ts, m) && m <= n
    ensures Live(ts, n, window) <= Live(ts, m, window)
    decreases |ts|
  {
    if ts != [] { LiveFalls(ts[..|ts| - 1], m, n, window); }
  }

  lemma DropYoungest(k: seq<Instant>, h: Instant, t: Instant, window: nat)
    requires AllUpTo(k, h) && h <= t
    ensures |DropExpired(k + [h], t, window)| == |DropExpired(k, t, window)| + if t - window < h then 1 else 0
  {
    DropPushed(k, h, t, window);
    DropIsSuffix(k, t, window);
    DropIsSuffix(k + [h], t, window);
    if DropExpired(k, t, window) == [] && t - window < h { DropStops(k + [h], |k|, t, window); }
  }

  lemma PushAgrees(k: seq<Instant>, ts: seq<Instant>, now: Instant, t: Instant, limit: nat, window: nat)
    requires AllUpTo(k, now) && AllUpTo(ts, now) && Live(ts, now, window) < limit && now <= t && CountsAt(k, ts, t, limit, window)
    ensures CountsAt(k + [now], ts + [now], t, limit, window)
  {
    DropYoungest(k, now, t, window);
    LiveAppend(ts, [now], t, window);
    LiveFalls(ts, now, t, window);
  }

  lemma PushStands(k: seq<Instant>, ts: seq<Instant>, now: Instant, limit: nat, window: nat)
    requires Standing(k, ts, now, limit, window) && Live(ts, now, window) < limit
    ensures Standing(k + [now], ts + [now], now, limit, window)
  {
    forall t: Instant | now <= t ensures CountsAt(k + [now], ts + [now], t, limit, window) {
      assert CountsAt(k, ts, t, limit, window);
      PushAgrees(k, ts, now, t, limit, window);
    }
    assert EndsYoungest(k + [now]);
    EndKept(k + [now], now, window);
  }

  lemma CheckStands(d: seq<Instant>, ts: seq<Instant>, now: Instant, limit: nat, window: nat)
    requires Standing(d, ts, now, limit, window)
    ensures var k := DropExpired(d, now, window);
      Standing(Checked(d, now, limit, window), if |k| < limit then ts + [now] else ts, now, limit, window)
  {
    var k := DropExpired(d, now, window);
    DroppedStands(d, ts, now, limit, window);
    if |k| < limit {
      assert CountsAt(d, ts, now, limit, window);
      PushStands(k, ts, now, limit, window);
    }
  }

  lemma DroppedStands(d: seq<Instant>, ts: seq<Instant>, now: Instant, limit: nat, window: nat)
    requires Standing(d, ts, now, limit, window)
    ensures Standing(DropExpired(d, now, window), ts, now, limit, window)
  {
    var k := DropExpired(d, now, window);
    DropIsSuffix(d, now, window);
    DropLater(d, now, now, window);
    forall t: Instant | now <= t ensures CountsAt(k, ts, t, limit, window) {
      assert CountsAt(d, ts, t, limit, window);
      DropLater(d, now, t, window);
    }
  }

  /** Pruning takes away a deque only when nothing in it is held. */
  lemma PruneStands(d: seq<Instant>, ts: seq<Instant>, now: Instant, limit: nat, window: nat)
    requires Standing(d, ts, now, limit, window)
    ensures Standing(Pruned(d, now, window), ts, now, limit, window)
  {
    var k := DropExpired(d, now, window);
    DropIsSuffix(d, now, window);
    if d != [] && Since(now, d[|d| - 1]) >= window {
      assert k == [];
      DroppedStands(d, ts, now, limit, window);
    }
  }

  lemma StepStands(d: seq<Instant>, ts: seq<Instant>, op: Op, key: string, limit: nat, window: nat)
    requires Standing(d, ts, op.now, limit, window)
    ensures Standing(NextDeque(d, op, key, limit, window), NextTimes(d, ts, op, key, limit, window), op.now, limit, window)
  {
    CheckStands(d, ts, op.now, limit, window);
    PruneStands(d, ts, op.now, limit, window);
  }

  ghost predicate StandingFor(ops: seq<Op>, key: string, clock: Instant, limit: Backoff.u32, window: nat) {
    Standing(DequeFor(ops, key, limit, window), PushedFor(ops, key, limit, window), clock, limit, window)
  }

  lemma {:induction false} RunStands(ops: seq<Op>, more: seq<Op>, key: string, clock: Instant, now: Instant, limit: Backoff.u32, window: nat)
    requires StandingFor(ops, key, clock, limit, window)
    requires OrderedFrom(more, clock) && UpTo(more, now) && clock <= now
    ensures StandingFor(ops + more, key, now, limit, window)
    decreases |more|
  {
    if more == [] {
      Regroup(ops, [], []);
      StandingLater(DequeFor(ops, key, limit, window), PushedFor(ops, key, limit, window), clock, now, limit, window);
    } else {
      var before, op := SplitLast(more, clock, now);
      RunStands(ops, before, key, clock, op.now, limit, window);
      Regroup(ops, before, [op]);
      OneOp(ops + before, op, key, limit, window);
      StepStands(DequeFor(ops + before, key, limit, window), PushedFor(ops + before, key, limit, window), op, key, limit, window);
      StandingLater(DequeFor(ops + more, key, limit, window), PushedFor(ops + more, key, limit, window), op.now, now, limit, window);
    }
  }

  lemma StandingIsRight(ops: seq<Op>, key: string, clock: Instant, limit: Backoff.u32, window: nat)
    requires StandingFor(ops, key, clock, limit, window)
    ensures RightFrom(ops, key, clock, limit, window)
  {
    forall more: seq<Op>, now: Instant | OrderedFrom(more + [Check(key, now)], clock) ensures ByTheRule(ops + more, key, now, limit, window) {
      Front(more, Check(key, now), clock);
      RunStands(ops, more, key, clock, now, limit, window);
      assert CountsAt(DequeFor(ops + more, key, limit, window), PushedFor(ops + more, key, limit, window), now, limit, window);
      Answer(ops + more, key, now, limit, window);
    }
  }

  // any other deque gives a wrong answer

  /** Fewer held than live, below the limit: filling up at once gives a wrong acceptance. */
  lemma {:induction false} Admitted(ops: seq<Op>, key: string, now: Instant, limit: Backoff.u32, window: nat) returns (more: seq<Op>)
    requires Held(ops, key, now, limit, window) < Min(LiveFor(ops, key, now, limit, window), limit) && window > 0
    ensures OrderedFrom(more + [Check(key, now)], now) && UpTo(more, now) && !ByTheRule(ops + more, key, now, limit, window)
    decreases limit - Held(ops, key, now, limit, window)
  {
    Answer(ops, key, now, limit, window);
    if LiveFor(ops, key, now, limit, window) >= limit {
      more := [];
      Regroup(ops, [], []);
    } else {
      var op := Check(key, now);
      FillOne(ops, key, now, limit, window);
      var rest := Admitted(ops + [op], key, now, limit, window);
      more := [op] + rest;
      Regroup(ops, [op], rest);
      ConsAll(op, rest, now);
    }
  }

  /** Unequal counts at some instant show at that instant. */
  lemma MiscountShows(ops: seq<Op>, key: string, t: Instant, limit: Backoff.u32, window: nat) returns (more: seq<Op>)
    requires !CountsAt(DequeFor(ops, key, limit, window), PushedFor(ops, key, limit, window), t, limit, window)
    ensures OrderedFrom(more + [Check(key, t)], t) && UpTo(more, t) && !ByTheRule(ops + more, key, t, limit, window)
  {
    if window == 0 { NoWindow(DequeFor(ops, key, limit, window), PushedFor(ops, key, limit, window), t); }
    Answer(ops, key, t, limit, window);
    if LiveFor(ops, key, t, limit, window) < Held(ops, key, t, limit, window) {
      more := Refused(ops, key, t, limit, window);
    } else {
      more := Admitted(ops, key, t, limit, window);
    }
  }

  /** When the youngest held hit is not the last, a prune forgets it in time. */
  lemma PruneLoses(d: seq<Instant>, clock: Instant, window: nat) returns (t: Instant)
    requires AllUpTo(d, clock) && !EndsYoungest(DropExpired(d, clock, window))
    ensures t >= clock && window > 0 && DropExpired(d, t, window) != [] && Pruned(d, t, window) == []
  {
    var k := DropExpired(d, clock, window);
    DropIsSuffix(d, clock, window);
    var i :| 0 <= i < |k| && k[i] > k[|k| - 1];
    t := Max(clock, d[|d| - 1] + window);
    DropStops(k, if t == clock then 0 else i, t, window);
    DropLater(d, clock, t, window);
  }

  /** A prune that forgets live hits shows at once. */
  lemma PruneMiscounts(ops: seq<Op>, key: string, t: Instant, limit: Backoff.u32, window: nat) returns (more: seq<Op>)
    requires CountsAt(DequeFor(ops, key, limit, window), PushedFor(ops, key, limit, window), t, limit, window)
    requires Held(ops, key, t, limit, window) > 0 && Pruned(DequeFor(ops, key, limit, window), t, window) == []
    ensures OrderedFrom(more + [Check(key, t)], t) && UpTo(more, t) && !ByTheRule(ops + more, key, t, limit, window)
  {
    var op := Prune(t);
    OneOp(ops, op, key, limit, window);
    var rest := MiscountShows(ops + [op], key, t, limit, window);
    more := [op] + rest;
    Regroup(ops, [op], rest);
    PruneFirst(op, rest, Check(key, t), t);
  }

  lemma PruneFirst(op: Op, rest: seq<Op>, last: Op, now: Instant)
    requires op.now == now == last.now && OrderedFrom(rest + [last], now) && UpTo(rest, now)
    ensures OrderedFrom(([op] + rest) + [last], now) && UpTo([op] + rest, now)
  {
    assert forall i | 0 <= i < |rest| :: (rest + [last])[i] == rest[i];
  }

  lemma StepUpTo(d: seq<Instant>, ts: seq<Instant>, op: Op, key: string, clock: Instant, limit: nat, window: nat)
    requires AllUpTo(d, clock) && AllUpTo(ts, clock) && op.now <= clock
    ensures AllUpTo(NextDeque(d, op, key, limit, window), clock) && AllUpTo(NextTimes(d, ts, op, key, limit, window), clock)
  {
    DropIsSuffix(d, op.now, window);
  }

  lemma {:induction false} NoneLater(ops: seq<Op>, key: string, clock: Instant, limit: Backoff.u32, window: nat)
    requires UpTo(ops, clock)
    ensures AllUpTo(DequeFor(ops, key, limit, window), clock) && AllUpTo(PushedFor(ops, key, limit, window), clock)
    decreases |ops|
  {
    if ops != [] {
      var before, op := ops[..|ops| - 1], ops[|ops| - 1];
      NoneLater(before, key, clock, limit, window);
      assert ops == before + [op];
      OneOp(before, op, key, limit, window);
      StepUpTo(DequeFor(before, key, limit, window), PushedFor(before, key, limit, window), op, key, clock, limit, window);
    }
  }

  /** After any checks and prunes, with readings in any order, all answers that
      a key gets once the clock has passed the readings are right exactly when
      its deque stands for the youngest live hits, at most `limit`, and ends
      with the youngest. */
  lemma RightFromExactly(ops: seq<Op>, key: string, clock: Instant, limit: Backoff.u32, window: nat)
    requires UpTo(ops, clock)
    ensures RightFrom(ops, key, clock, limit, window)
      <==> Represents(DequeFor(ops, key, limit, window), PushedFor(ops, key, limit, window), clock, limit, window)
  {
    var d, ts := DequeFor(ops, key, limit, window), PushedFor(ops, key, limit, window);
    NoneLater(ops, key, clock, limit, window);
    RepresentsIff(d, ts, clock, limit, window);
    if Represents(d, ts, clock, limit, window) {
      StandingIsRight(ops, key, clock, limit, window);
    } else {
      var more, t := WrongSomewhere(ops, key, clock, limit, window);
      Later(more + [Check(key, t)], t, clock);
    }
  }

  lemma WrongSomewhere(ops: seq<Op>, key: string, clock: Instant, limit: Backoff.u32, window: nat) returns (more: seq<Op>, t: Instant)
    requires AllUpTo(DequeFor(ops, key, limit, window), clock) && !StandingFor(ops, key, clock, limit, window)
    requires AllUpTo(PushedFor(ops, key, limit, window), clock)
    ensures t >= clock && OrderedFrom(more + [Check(key, t)], t) && !ByTheRule(ops + more, key, t, limit, window)
  {
    var d, ts := DequeFor(ops, key, limit, window), PushedFor(ops, key, limit, window);
    if !CountsAgree(d, ts, clock, limit, window) {
      t :| clock <= t && !CountsAt(d, ts, t, limit, window);
      more := MiscountShows(ops, key, t, limit, window);
    } else {
      t := PruneLoses(d, clock, window);
      assert CountsAt(d, ts, t, limit, window);
      more := PruneMiscounts(ops, key, t, limit, window);
    }
  }
}
