/** The retry delays of the four services, at their machine widths. Random
    draws are parameters; the floating-point products are taken over the
    reals and truncated as the source does. */
module Backoff {
  import opened Common

  const TWO_64: int := 0x1_0000_0000_0000_0000
  const TWO_63: int := 0x8000_0000_0000_0000
  const TWO_32: int := 0x1_0000_0000

  type u64 = x: int | 0 <= x < TWO_64
  type u32 = x: int | 0 <= x < TWO_32

  function Pow2(n: nat): (p: nat)
    ensures p >= 1
  {
    if n == 0 then 1 else 2 * Pow2(n - 1)
  }

  /** `as i64`. */
  function AsI64(x: u64): int {
    if x < TWO_63 then x else x - TWO_64
  }

  function SaturatingPred(n: nat): nat {
    if n == 0 then 0 else n - 1
  }

  // ---------------------------------------------------------------- service q

  /** One 64-bit draw reduced to `0..=cap`. */
  function UniformInclusive(draw: u64, cap: u64): (r: u64)
    ensures r <= cap
  {
    if cap == TWO_64 - 1 then draw else draw % (cap + 1)
  }

  /** `u64::checked_shl`: fails only on the shift amount; bits shifted out are lost. */
  function CheckedShl(x: u64, bits: nat): Option<u64> {
    if bits < 64 then Some((x * Pow2(bits)) % TWO_64) else None
  }

  function QShift(attempt: nat): nat {
    Min(SaturatingPred(attempt), 20)
  }

  function QCap(attempt: nat, base: u64, max: u64): u64 {
    var shifted := match CheckedShl(base, QShift(attempt)) case Some(v) => v case None => TWO_64 - 1;
    Min(shifted, max)
  }

  function NextDelayMs(attempt: nat, base: u64, max: u64, draw: u64): u64 {
    UniformInclusive(draw, QCap(attempt, base, max))
  }

  // ---------------------------------------------------------------- service k

  function SaturatingMul(a: u64, b: nat): u64 {
    Min(a * b, TWO_64 - 1)
  }

  /** `attempts.max(1) as u32 - 1`, wrapping as a release build does, then at most 20. */
  function KShift(attempts: int): nat {
    Min((Max(attempts, 1) % TWO_32 - 1) % TWO_32, 20)
  }

  function KCap(attempts: int, base: u64, max: u64): u64 {
    Min(SaturatingMul(base, Pow2(KShift(attempts))), max)
  }

  /** `jitter` stands for `fastrand::f64() * 0.4 - 0.2`. */
  function KDelay(attempts: int, base: u64, max: u64, jitter: real): int {
    Scaled(KCap(attempts, base, max), 1.0 + jitter)
  }

  /** What is added to the clock: a delay beyond the date library's range is
      replaced by the maximum, cast to a signed number. */
  function KWait(attempts: int, base: u64, max: u64, jitter: real): int {
    var delay := KDelay(attempts, base, max, jitter);
    if delay < TWO_63 then delay else AsI64(max)
  }

  /** A delay times a factor, truncated to whole milliseconds; never negative. */
  function Scaled(delay: nat, factor: real): (ms: int)
    ensures ms >= 0
  {
    var scaled := delay as real * factor;
    if scaled < 0.0 then 0 else scaled.Floor
  }

  // ---------------------------------------------------------------- service d

  function DShift(attempt: nat): nat {
    Min(SaturatingPred(attempt), 10)
  }

  function DCap(attempt: nat, base: u64, max: u64): u64 {
    Min(SaturatingMul(base, Pow2(DShift(attempt))), max)
  }

  /** `jitter` stands for a draw from `0.8..1.2`. */
  function DDelay(attempt: nat, base: u64, max: u64, jitter: real): int {
    Scaled(DCap(attempt, base, max), jitter)
  }

  // ---------------------------------------------------------------- service g

  function GShift(attempt: int): nat {
    Min(Max(attempt, 1) - 1, 16)
  }

  function GCap(attempt: int, base: int, max: int): int {
    Min(Max(base, 1) * Pow2(GShift(attempt)), Max(max, 1))
  }

  /** `draw` stands for `gen_range((capped / 2.0)..=capped)`. */
  function GDelay(draw: real): int {
    draw.Floor
  }

  // --------------------------------------------------------------- properties

  /** What the READMEs promise: start from the base, double once per failed
      attempt, and never pass the maximum. */
  function CappedDoubling(base: nat, max: nat, n: nat): nat {
    if n == 0 then Min(base, max) else Min(2 * CappedDoubling(base, max, n - 1), max)
  }

  lemma DoubledProduct(a: nat, b: nat)
    ensures a * (2 * b) == 2 * (a * b) && a * b >= 0
  {
  }

  lemma {:induction false} ClosedForm(base: nat, max: nat, n: nat)
    ensures CappedDoubling(base, max, n) == Min(base * Pow2(n), max)
  {
    if n > 0 {
      ClosedForm(base, max, n - 1);
      DoubledProduct(base, Pow2(n - 1));
    }
  }

  lemma {:induction false} DoublingGrows(base: nat, max: nat, m: nat, n: nat)
    requires m <= n
    ensures CappedDoubling(base, max, m) <= CappedDoubling(base, max, n) <= max
    decreases n
  {
    if m < n { DoublingGrows(base, max, m, n - 1); }
  }

  /** k's saturating product is the capped doubling for every u64 base and maximum. */
  lemma KDoubles(attempts: int, base: u64, max: u64)
    ensures KCap(attempts, base, max) == CappedDoubling(base, max, KShift(attempts))
  {
    ClosedForm(base, max, KShift(attempts));
  }

  /** The `as u32` cast gives the documented exponent exactly when no high
      bits are lost, or when what is left of them still reaches the limit 20. */
  lemma KShiftExact(attempts: int)
    ensures KShift(attempts) == Min(Max(attempts, 1) - 1, 20)
      <==> attempts < TWO_32 || attempts % TWO_32 == 0 || attempts % TWO_32 > 20
  {
    if attempts < TWO_32 {
    } else {
      assert Max(attempts, 1) == attempts;
    }
  }

  /** One attempt past 2^32 k retries after the base delay again. */
  lemma KShiftWraps()
    ensures KShift(TWO_32 + 1) == 0 && Min(Max(TWO_32 + 1, 1) - 1, 20) == 20
  {
  }

  /** A retry is due before it is scheduled exactly when the delay is out of
      range and the maximum does not fit into 63 bits. */
  lemma KWaitNegative(attempts: int, base: u64, max: u64, jitter: real)
    ensures KWait(attempts, base, max, jitter) < 0 <==> KDelay(attempts, base, max, jitter) >= TWO_63 && max >= TWO_63
  {
  }

  lemma KWaitsBackwards()
    ensures KWait(1, TWO_63, TWO_64 - 1, 0.0) == -1
  {
    assert KCap(1, TWO_63, TWO_64 - 1) == TWO_63;
    assert TWO_63 as real * (1.0 + 0.0) == TWO_63 as real;
  }

  /** No retry is ever due before it is scheduled. */
  ghost predicate KForward(base: u64, max: u64) {
    forall attempts: int, jitter: real | -0.2 <= jitter < 0.2 :: KWait(attempts, base, max, jitter) >= 0
  }

  /** k schedules all its retries forward exactly when the maximum fits into 63
      bits or the cap of the 21st attempt, jittered upwards, stays below 2^63. */
  lemma KForwardIff(base: u64, max: u64)
    ensures KForward(base, max) <==> max < TWO_63 || 6 * KCap(21, base, max) <= 5 * TWO_63
  {
    if max >= TWO_63 && 6 * KCap(21, base, max) > 5 * TWO_63 {
      var jitter := FarJitter(KCap(21, base, max));
      KWaitNegative(21, base, max, jitter);
    } else {
      forall attempts: int, jitter: real | -0.2 <= jitter < 0.2 ensures KWait(attempts, base, max, jitter) >= 0 {
        KWaitNegative(attempts, base, max, jitter);
        KLargestCap(attempts, base, max);
        if 6 * KCap(21, base, max) <= 5 * TWO_63 { NearDelay(KCap(attempts, base, max), jitter); }
      }
    }
  }

  lemma KShiftAtMost(attempts: int)
    ensures KShift(attempts) <= 20 == KShift(21)
  {
  }

  lemma KLargestCap(attempts: int, base: u64, max: u64)
    ensures KCap(attempts, base, max) <= KCap(21, base, max)
  {
    var n, m := KShift(attempts), KShift(21);
    KShiftAtMost(attempts);
    KDoubles(attempts, base, max);
    KDoubles(21, base, max);
    DoublingGrows(base, max, n, m);
  }

  lemma FarJitter(cap: nat) returns (jitter: real)
    requires 6 * cap > 5 * TWO_63
    ensures -0.2 <= jitter < 0.2 && Scaled(cap, 1.0 + jitter) >= TWO_63
  {
    if cap >= TWO_63 {
      jitter := 0.0;
    } else {
      jitter := TWO_63 as real / cap as real - 1.0;
      assert cap as real * (1.0 + jitter) == TWO_63 as real;
    }
  }

  lemma NearDelay(cap: nat, jitter: real)
    requires 6 * cap <= 5 * TWO_63 && -0.2 <= jitter < 0.2
    ensures Scaled(cap, 1.0 + jitter) < TWO_63
  {
    if cap > 0 {
      NearProduct(cap as real, 1.0 + jitter);
      assert 1.2 * cap as real <= TWO_63 as real;
    }
  }

  lemma NearProduct(c: real, factor: real)
    requires c > 0.0 && 0.8 <= factor < 1.2
    ensures 0.0 <= c * factor < 1.2 * c
  {
    assert c * (1.2 - factor) > 0.0;
    ProductBand(c, factor);
  }

  lemma KMonotone(a: int, b: int, base: u64, max: u64)
    requires a <= b < TWO_32
    ensures KCap(a, base, max) <= KCap(b, base, max) <= max
  {
    KShiftExact(a);
    KShiftExact(b);
    KDoubles(a, base, max);
    KDoubles(b, base, max);
    DoublingGrows(base, max, KShift(a), KShift(b));
  }

  lemma DDoubles(attempt: nat, base: u64, max: u64)
    ensures DCap(attempt, base, max) == CappedDoubling(base, max, Min(SaturatingPred(attempt), 10))
  {
    ClosedForm(base, max, DShift(attempt));
  }

  lemma DMonotone(a: nat, b: nat, base: u64, max: u64)
    requires a <= b
    ensures DCap(a, base, max) <= DCap(b, base, max) <= max
  {
    DDoubles(a, base, max);
    DDoubles(b, base, max);
    DoublingGrows(base, max, DShift(a), DShift(b));
  }

  lemma GDoubles(attempt: int, base: int, max: int)
    ensures GCap(attempt, base, max) == CappedDoubling(Max(base, 1), Max(max, 1), Min(Max(attempt, 1) - 1, 16))
  {
    ClosedForm(Max(base, 1), Max(max, 1), GShift(attempt));
  }

  lemma GPositive(attempt: int, base: int, max: int)
    ensures 1 <= GCap(attempt, base, max)
  {
    AtLeast(Max(base, 1), Pow2(GShift(attempt)));
  }

  lemma GMonotone(a: int, b: int, base: int, max: int)
    requires a <= b
    ensures 1 <= GCap(a, base, max) <= GCap(b, base, max) <= Max(max, 1)
  {
    var m, n := GShift(a), GShift(b);
    GPositive(a, base, max);
    ClosedForm(Max(base, 1), Max(max, 1), m);
    ClosedForm(Max(base, 1), Max(max, 1), n);
    DoublingGrows(Max(base, 1), Max(max, 1), m, n);
  }

  /** q's cap is the documented `min(base * 2^exp, max)` exactly when no bit is
      shifted out, or when the bits that remain already reach the maximum. */
  lemma QCapExact(attempt: nat, base: u64, max: u64)
    ensures QCap(attempt, base, max) == CappedDoubling(base, max, Min(SaturatingPred(attempt), 20))
      <==> base * Pow2(QShift(attempt)) < TWO_64 || (base * Pow2(QShift(attempt))) % TWO_64 >= max
    ensures QCap(attempt, base, max) <= CappedDoubling(base, max, Min(SaturatingPred(attempt), 20)) <= max
  {
    ClosedForm(base, max, QShift(attempt));
  }

  /** Where it is not exact: the base is lost altogether and the retry is immediate. */
  lemma QCapLosesBits()
    ensures QCap(2, 0x8000_0000_0000_0000, TWO_64 - 1) == 0
    ensures CappedDoubling(0x8000_0000_0000_0000, TWO_64 - 1, 1) == TWO_64 - 1
  {
    assert Pow2(1) == 2;
    ClosedForm(0x8000_0000_0000_0000, TWO_64 - 1, 1);
  }

  /** On the first 2^32 attempts q and k cap alike exactly under q's own condition. */
  lemma QMatchesK(attempt: u32, base: u64, max: u64)
    ensures QCap(attempt, base, max) == KCap(attempt, base, max)
      <==> base * Pow2(QShift(attempt)) < TWO_64 || (base * Pow2(QShift(attempt))) % TWO_64 >= max
  {
    KShiftExact(attempt);
    KDoubles(attempt, base, max);
    QCapExact(attempt, base, max);
  }

  /** Jittered delays stay in the promised band around the cap, up to truncation. */
  lemma JitterBands(attempts: int, attempt: nat, base: u64, max: u64, kj: real, dj: real)
    requires -0.2 <= kj <= 0.2 && 0.8 <= dj <= 1.2
    ensures 8 * KCap(attempts, base, max) - 10 < 10 * KDelay(attempts, base, max, kj) <= 12 * KCap(attempts, base, max)
    ensures 8 * DCap(attempt, base, max) - 10 < 10 * DDelay(attempt, base, max, dj) <= 12 * DCap(attempt, base, max)
  {
    Band(KCap(attempts, base, max), 1.0 + kj);
    Band(DCap(attempt, base, max), dj);
  }

  lemma Band(cap: nat, factor: real)
    requires 0.8 <= factor <= 1.2
    ensures 8 * cap - 10 < 10 * Scaled(cap, factor) <= 12 * cap
  {
    ProductBand(cap as real, factor);
    FloorBand(cap, cap as real * factor);
  }

  lemma FloorBand(cap: nat, p: real)
    requires 0.8 * cap as real <= p <= 1.2 * cap as real
    ensures 8 * cap - 10 < 10 * p.Floor <= 12 * cap
  {
  }

  lemma ProductBand(c: real, factor: real)
    requires c >= 0.0 && 0.8 <= factor <= 1.2
    ensures 0.0 <= 0.8 * c <= c * factor <= 1.2 * c
  {
    assert c * (factor - 0.8) >= 0.0;
    assert c * (1.2 - factor) >= 0.0;
  }

  /** A cap times a factor, without its fraction. */
  lemma ScaledIs(cap: nat, factor: real)
    requires 0.8 <= factor <= 1.2
    ensures cap as real * factor >= 0.0 && Scaled(cap, factor) == (cap as real * factor).Floor
  {
    ProductBand(cap as real, factor);
  }

  lemma Floors(p: real)
    requires p >= 0.0
    ensures p.Floor as real <= p < p.Floor as real + 1.0
    ensures p.Floor < TWO_63 <==> p < TWO_63 as real
  {
  }

  lemma GBand(attempt: int, base: int, max: int, draw: real)
    requires GCap(attempt, base, max) as real / 2.0 <= draw <= GCap(attempt, base, max) as real
    ensures GCap(attempt, base, max) / 2 <= GDelay(draw) <= GCap(attempt, base, max)
  {
    var cap := GCap(attempt, base, max);
    var f := GDelay(draw);
    assert f as real <= draw < f as real + 1.0;
    assert cap as real < (2 * f + 2) as real;
  }

  // ------------------------------------------------------- uniformity of q's jitter

  ghost function Draws(n: nat, m: nat, r: nat): set<int>
    requires m > 0
  {
    set x: int | 0 <= x < n && x % m == r
  }

  lemma AtLeast(k: int, m: nat)
    requires k >= 1
    ensures k * m >= m
  {
    assert (k - 1) * m >= 0;
    assert k * m == (k - 1) * m + m;
  }

  lemma Distribute(a: int, b: int, m: int)
    ensures (a - b) * m == a * m - b * m
    ensures (a + b) * m == a * m + b * m
  {
  }

  lemma Unique(n: nat, m: nat, q: nat, r: nat)
    requires m > 0 && r < m && n == q * m + r
    ensures n / m == q && n % m == r
  {
    var q', r' := n / m, n % m;
    assert n == m * q' + r';
    Distribute(q, q', m);
    Distribute(q', q, m);
    if q > q' {
      AtLeast(q - q', m);
    } else if q < q' {
      AtLeast(q' - q, m);
    }
  }

  lemma DivStep(n: nat, m: nat)
    requires m > 0
    ensures n % m == m - 1 ==> (n + 1) / m == n / m + 1 && (n + 1) % m == 0
    ensures n % m < m - 1 ==> (n + 1) / m == n / m && (n + 1) % m == n % m + 1
  {
    var q, r := n / m, n % m;
    assert n == q * m + r;
    NextQuotient(n, m, q, r);
  }

  lemma NextQuotient(n: nat, m: nat, q: nat, r: nat)
    requires m > 0 && r < m && n == q * m + r
    ensures r == m - 1 ==> (n + 1) / m == q + 1 && (n + 1) % m == 0
    ensures r < m - 1 ==> (n + 1) / m == q && (n + 1) % m == r + 1
  {
    if r == m - 1 {
      Distribute(q, 1, m);
      Unique(n + 1, m, q + 1, 0);
    } else {
      Unique(n + 1, m, q, r + 1);
    }
  }

  lemma {:induction false} DrawCount(n: nat, m: nat, r: nat)
    requires r < m
    ensures |Draws(n, m, r)| == n / m + if r < n % m then 1 else 0
  {
    if n == 0 {
      assert Draws(0, m, r) == {};
      Unique(0, m, 0, 0);
    } else {
      DrawCount(n - 1, m, r);
      DivStep(n - 1, m);
      if (n - 1) % m == r {
        assert Draws(n, m, r) == Draws(n - 1, m, r) + {n - 1};
      } else {
        assert Draws(n, m, r) == Draws(n - 1, m, r);
      }
    }
  }

  /** The draws that give the delay `r` under `cap`. */
  ghost function Preimage(cap: u64, r: u64): set<int> {
    set x: int | 0 <= x < TWO_64 && UniformInclusive(x, cap) == r
  }

  /** Every delay `0..=cap` is hit, and no delay by more than one draw more
      than another: that is all the bias the reduction has. */
  lemma JitterUniform(cap: u64, r1: u64, r2: u64)
    requires r1 <= cap && r2 <= cap
    ensures Preimage(cap, r1) != {}
    ensures -1 <= |Preimage(cap, r1)| - |Preimage(cap, r2)| <= 1
  {
    forall r: u64 | r <= cap ensures Preimage(cap, r) == Draws(TWO_64, cap + 1, r) && r in Preimage(cap, r) {
      if cap == TWO_64 - 1 {
        assert forall x: int | 0 <= x < TWO_64 :: UniformInclusive(x, cap) == x == x % TWO_64;
      } else {
        Unique(r, cap + 1, 0, r);
      }
    }
    DrawCount(TWO_64, cap + 1, r1);
    DrawCount(TWO_64, cap + 1, r2);
  }
}
