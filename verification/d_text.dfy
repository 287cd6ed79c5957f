/** d's timestamp columns: `to_rfc3339()` text, whose fraction has 0, 3, 6 or 9
    digits, whichever is enough. */
module DText {
  import opened Common
  import opened Selection
  import opened TextOrder
  import opened TextSelection
  import opened Timestamp
  import opened DProtocol
  import Gregorian

  const ZONE := "+00:00"

  /** Nanoseconds since the start of the year 0000. */
  function Nanos(t: Instant): nat {
    t - FIRST
  }

  function Fraction(n: nat): string {
    if n == 0 then ""
    else if n % 1_000_000 == 0 then "." + Digits(n / 1_000_000, 3)
    else if n % 1000 == 0 then "." + Digits(n / 1000, 6)
    else "." + Digits(n, 9)
  }

  /** The fields from the k-th to the second, and then `tail`. */
  function WriteTo(f: seq<nat>, k: nat, tail: string): string
    requires |f| == PARTS && k <= 6
    decreases 6 - k
  {
    if k == 6 then tail
    else if k == 5 then Digits(f[5], 2) + WriteTo(f, 6, tail)
    else Digits(f[k], Width(k)) + ([End(k)] + WriteTo(f, k + 1, tail))
  }

  function FmtNanos(t: Instant): string {
    var f := FieldsOf(Millis(t));
    var tail := Fraction(Nanos(t) % 1_000_000_000) + ZONE;
    if f[0] <= 9999 then WriteTo(f, 0, tail) else "+" + Digits(f[0], DecimalWidth(f[0])) + "-" + WriteTo(f, 1, tail)
  }

  // --------------------------------------------------------------- the fraction

  /** The zone's sign sorts before a point and before every digit. */
  lemma SignFirst(s: string)
    requires s != "" && (s[0] == '.' || IsDigit(s[0]))
    ensures Compare(ZONE, s) == -1 && Compare(s, ZONE) == 1
  {
  }

  /** Groups of three digits, as far as they are needed. */
  function Groups(n: nat, k: nat): string
    requires k >= 1
    decreases k
  {
    if n == 0 then ZONE
    else if k == 1 then Digits(n, 3) + ZONE
    else Digits(n / Pow1000(k - 1), 3) + Groups(n % Pow1000(k - 1), k - 1)
  }

  function Pow1000(k: nat): (p: nat)
    ensures p >= 1
  {
    if k == 0 then 1 else if k == 1 then 1000 else 1_000_000
  }

  lemma Groups1(m: nat, n: nat)
    requires m < 1000 && n < 1000
    ensures Compare(Groups(m, 1), Groups(n, 1)) == Order(m, n)
  {
    if m > 0 { SignFirst(Groups(m, 1)); }
    if n > 0 { SignFirst(Groups(n, 1)); }
    CompareEqual(ZONE, ZONE);
    assert Pow10(3) == 1000;
    CompareDigits(m, n, 3);
    ComparePrefixed(Digits(m, 3), Digits(n, 3), ZONE, ZONE);
  }

  lemma Groups2(m: nat, n: nat)
    requires m < 1_000_000 && n < 1_000_000
    ensures Compare(Groups(m, 2), Groups(n, 2)) == Order(m, n)
  {
    if m > 0 { SignFirst(Groups(m, 2)); }
    if n > 0 { SignFirst(Groups(n, 2)); }
    CompareEqual(ZONE, ZONE);
    assert Pow10(3) == 1000;
    CompareDigits(m / 1000, n / 1000, 3);
    Groups1(m % 1000, n % 1000);
    ComparePrefixed(Digits(m / 1000, 3), Digits(n / 1000, 3), Groups(m % 1000, 1), Groups(n % 1000, 1));
    RadixOrder(m, n, 1000);
  }

  lemma Groups3(m: nat, n: nat)
    requires 0 < m < 1_000_000_000 && 0 < n < 1_000_000_000
    ensures Compare(Groups(m, 3), Groups(n, 3)) == Order(m, n)
  {
    assert Pow10(3) == 1000;
    CompareDigits(m / 1_000_000, n / 1_000_000, 3);
    Groups2(m % 1_000_000, n % 1_000_000);
    ComparePrefixed(Digits(m / 1_000_000, 3), Digits(n / 1_000_000, 3), Groups(m % 1_000_000, 2), Groups(n % 1_000_000, 2));
    RadixOrder(m, n, 1_000_000);
  }

  /** Six digits are two groups of three. */
  lemma Digits6(n: nat)
    requires n < 1_000_000
    ensures Digits(n, 6) == Digits(n / 1000, 3) + Digits(n % 1000, 3)
  {
    LowDigits(n);
    HighDigits(n);
    assert Digits(n, 6) == Digits(n / 10 / 10 / 10, 3) + Digits(n, 3) by { LastThree(n, 3); }
  }

  lemma Digits9(n: nat)
    requires n < 1_000_000_000
    ensures Digits(n, 9) == Digits(n / 1_000_000, 3) + (Digits(n % 1_000_000 / 1000, 3) + Digits(n % 1000, 3))
  {
    LastThree(n, 6);
    HighDigits(n);
    LowDigits(n);
    Digits6(n / 1000);
    Parts(n);
  }

  lemma LastThree(n: nat, w: nat)
    ensures Digits(n, w + 3) == Digits(n / 10 / 10 / 10, w) + Digits(n, 3)
  {
    assert Digits(n, w + 3) == Digits(n / 10, w + 2) + [DigitChar(n % 10)];
    assert Digits(n / 10, w + 2) == Digits(n / 10 / 10, w + 1) + [DigitChar(n / 10 % 10)];
    assert Digits(n / 10 / 10, w + 1) == Digits(n / 10 / 10 / 10, w) + [DigitChar(n / 10 / 10 % 10)];
    Three(n);
  }

  lemma Three(n: nat)
    ensures Digits(n, 3) == [DigitChar(n / 10 / 10 % 10), DigitChar(n / 10 % 10), DigitChar(n % 10)]
  {
    assert Digits(n, 3) == Digits(n / 10, 2) + [DigitChar(n % 10)];
    assert Digits(n / 10, 2) == Digits(n / 10 / 10, 1) + [DigitChar(n / 10 % 10)];
    assert Digits(n / 10 / 10, 1) == Digits(n / 10 / 10 / 10, 0) + [DigitChar(n / 10 / 10 % 10)];
  }

  lemma HighDigits(n: nat)
    ensures n / 10 / 10 / 10 == n / 1000
  {
  }

  lemma LastDigits(n: nat, q: nat, m: nat)
    requires n == 1000 * q + m
    ensures m % 10 == n % 10 && m / 10 % 10 == n / 10 % 10 && m / 10 / 10 % 10 == n / 10 / 10 % 10
  {
    assert n / 10 == 100 * q + m / 10;
    assert n / 10 / 10 == 10 * q + m / 10 / 10;
  }

  /** Three digits show the number modulo 1000. */
  lemma LowDigits(n: nat)
    ensures Digits(n, 3) == Digits(n % 1000, 3)
  {
    LastDigits(n, n / 1000, n % 1000);
    Three(n);
    Three(n % 1000);
  }

  lemma Parts(n: nat)
    ensures n % 1_000_000 % 1000 == n % 1000 && n / 1000 / 1000 == n / 1_000_000 && n / 1000 % 1000 == n % 1_000_000 / 1000
  {
  }

  /** The three groups written out. */
  lemma GroupsUnfold(n: nat)
    requires n > 0
    ensures Groups(n, 3) == Digits(n / 1_000_000, 3) + (
      if n % 1_000_000 == 0 then ZONE
      else Digits(n % 1_000_000 / 1000, 3) + (if n % 1000 == 0 then ZONE else Digits(n % 1000, 3) + ZONE))
  {
    Parts(n);
    assert Groups(n, 3) == Digits(n / 1_000_000, 3) + Groups(n % 1_000_000, 2);
    if n % 1_000_000 != 0 {
      assert Groups(n % 1_000_000, 2) == Digits(n % 1_000_000 / 1000, 3) + Groups(n % 1000, 1);
    }
  }

  lemma FractionGroups(n: nat)
    requires n < 1_000_000_000
    ensures Fraction(n) + ZONE == if n == 0 then ZONE else "." + Groups(n, 3)
  {
    if n > 0 {
      GroupsUnfold(n);
      FractionUnfold(n);
    }
  }

  lemma FractionUnfold(n: nat)
    requires 0 < n < 1_000_000_000
    ensures Fraction(n) + ZONE == "." + (Digits(n / 1_000_000, 3) + (
      if n % 1_000_000 == 0 then ZONE
      else Digits(n % 1_000_000 / 1000, 3) + (if n % 1000 == 0 then ZONE else Digits(n % 1000, 3) + ZONE)))
  {
    Parts(n);
    if n % 1_000_000 == 0 {
    } else if n % 1000 == 0 {
      Digits6(n / 1000);
    } else {
      Digits9(n);
    }
  }

  lemma FractionOrder(m: nat, n: nat)
    requires m < 1_000_000_000 && n < 1_000_000_000
    ensures Compare(Fraction(m) + ZONE, Fraction(n) + ZONE) == Order(m, n)
  {
    FractionGroups(m);
    FractionGroups(n);
    CompareEqual(ZONE, ZONE);
    if m > 0 { SignFirst("." + Groups(m, 3)); }
    if n > 0 { SignFirst("." + Groups(n, 3)); }
    if m > 0 && n > 0 {
      Groups3(m, n);
      ComparePrefixed(".", ".", Groups(m, 3), Groups(n, 3));
    }
  }

  // ------------------------------------------------------------------- the order

  function CompareTo(f: seq<nat>, g: seq<nat>, k: nat, last: int): int
    requires |f| == |g| == PARTS && k <= 6
    decreases 6 - k
  {
    if k == 6 then last else Then(Order(f[k], g[k]), CompareTo(f, g, k + 1, last))
  }

  lemma {:induction false} CompareWrittenTo(f: seq<nat>, g: seq<nat>, k: nat, u: string, v: string)
    requires Fits(f, k) && Fits(g, k) && k <= 6
    ensures Compare(WriteTo(f, k, u), WriteTo(g, k, v)) == CompareTo(f, g, k, Compare(u, v))
    decreases 6 - k
  {
    if k < 6 {
      CompareWrittenTo(f, g, k + 1, u, v);
      CompareDigits(f[k], g[k], Width(k));
      var x, y := WriteTo(f, k + 1, u), WriteTo(g, k + 1, v);
      ComparePrefixed([End(k)], [End(k)], x, y);
      ComparePrefixed(Digits(f[k], Width(k)), Digits(g[k], Width(k)), if k == 5 then x else [End(k)] + x, if k == 5 then y else [End(k)] + y);
    }
  }

  /** Whole seconds, and the nanoseconds beyond them. */
  lemma SecondsOrder(t: Instant, u: Instant)
    ensures var x, y := Nanos(t), Nanos(u);
      CompareTo(FieldsOf(Millis(t)), FieldsOf(Millis(u)), 0, Order(x % 1_000_000_000, y % 1_000_000_000)) == Order(t, u)
  {
    var x, y := Nanos(t), Nanos(u);
    var s, r := x / 1_000_000_000, y / 1_000_000_000;
    RadixOrder(x, y, 1_000_000_000);
    WholeSeconds(t);
    WholeSeconds(u);
    FieldsOrder(s * 1000, r * 1000);
    SameSeconds(Millis(t), s);
    SameSeconds(Millis(u), r);
    var f, g := FieldsOf(s * 1000), FieldsOf(r * 1000);
    SixFields(f, g, Order(x % 1_000_000_000, y % 1_000_000_000));
    FirstSix(FieldsOf(Millis(t)), f, FieldsOf(Millis(u)), g, Order(x % 1_000_000_000, y % 1_000_000_000));
  }

  lemma WholeSeconds(t: Instant)
    ensures Millis(t) / 1000 == Nanos(t) / 1_000_000_000
  {
    var x := Nanos(t);
    assert Millis(t) == x / 1_000_000;
    assert x / 1_000_000 / 1000 == x / 1_000_000_000;
  }

  /** All but the last field depend on the whole seconds only. */
  lemma SameSeconds(ms: nat, s: nat)
    requires ms / 1000 == s
    ensures FieldsOf(s * 1000)[..6] == FieldsOf(ms)[..6] && FieldsOf(s * 1000)[6] == 0
  {
    assert s * 1000 / 1000 == s && s * 1000 % 1000 == 0;
    assert DayOf(s * 1000) == DayOf(ms);
  }

  lemma SixFields(f: seq<nat>, g: seq<nat>, last: int)
    requires |f| == |g| == PARTS && f[6] == g[6]
    ensures CompareTo(f, g, 0, last) == Then(CompareFrom(f, g, 0), last)
  {
    DateThenTime(f, g);
    assert CompareTo(f, g, 4, last) == Then(Order(f[4], g[4]), Then(Order(f[5], g[5]), last));
    assert CompareTo(f, g, 2, last) == Then(Order(f[2], g[2]), Then(Order(f[3], g[3]), CompareTo(f, g, 4, last)));
  }

  lemma FirstSix(f: seq<nat>, f': seq<nat>, g: seq<nat>, g': seq<nat>, last: int)
    requires |f| == |f'| == |g| == |g'| == PARTS && f'[..6] == f[..6] && g'[..6] == g[..6]
    ensures CompareTo(f, g, 0, last) == CompareTo(f', g', 0, last)
  {
    SameFrom(f, f', g, g', 0, last);
  }

  lemma {:induction false} SameFrom(f: seq<nat>, f': seq<nat>, g: seq<nat>, g': seq<nat>, k: nat, last: int)
    requires |f| == |f'| == |g| == |g'| == PARTS && f'[..6] == f[..6] && g'[..6] == g[..6] && k <= 6
    ensures CompareTo(f, g, k, last) == CompareTo(f', g', k, last)
    decreases 6 - k
  {
    if k < 6 {
      SameFrom(f, f', g, g', k + 1, last);
      assert f[k] == f[..6][k] == f'[k] && g[k] == g[..6][k] == g'[k];
    }
  }

  /** For years 0000 to 9999, comparing d's text is comparing the instants. */
  lemma NanosAreChronological(t: Instant, u: Instant)
    requires YearOf(t) <= 9999 && YearOf(u) <= 9999
    ensures Compare(FmtNanos(t), FmtNanos(u)) == Order(t, u)
  {
    var m, n := Nanos(t) % 1_000_000_000, Nanos(u) % 1_000_000_000;
    FieldsFit(Millis(t));
    FieldsFit(Millis(u));
    CompareWrittenTo(FieldsOf(Millis(t)), FieldsOf(Millis(u)), 0, Fraction(m) + ZONE, Fraction(n) + ZONE);
    FractionOrder(m, n);
    SecondsOrder(t, u);
  }

  // ------------------------------------------------------------- the date it shows

  /** The nanoseconds that the last of `w` digits stands for. */
  function Unit(w: nat): (u: nat)
    ensures u > 0
  {
    if w == 0 then 1_000_000_000 else if w == 3 then 1_000_000 else if w == 6 then 1000 else 1
  }

  /** `w` digits are enough for `n` nanoseconds. */
  predicate Enough(n: nat, w: nat) {
    n % Unit(w) == 0
  }

  /** The fraction has the least of 0, 3, 6 and 9 digits that loses nothing. */
  lemma FractionShows(n: nat) returns (w: nat)
    requires n < 1_000_000_000
    ensures (w == 0 || w == 3 || w == 6 || w == 9) && Enough(n, w)
    ensures Fraction(n) == if w == 0 then "" else "." + Digits(n / Unit(w), w)
    ensures (w > 0 ==> !Enough(n, 0)) && (w > 3 ==> !Enough(n, 3)) && (w > 6 ==> !Enough(n, 6))
  {
    w := if n == 0 then 0 else if n % 1_000_000 == 0 then 3 else if n % 1000 == 0 then 6 else 9;
  }

  lemma WrittenTo(f: seq<nat>, tail: string)
    requires |f| == PARTS
    ensures WriteTo(f, 0, tail) == Gregorian.DateText(f[0], f[1], f[2], Gregorian.TimeText(f[3], f[4], f[5], tail))
  {
    assert WriteTo(f, 4, tail) == Digits(f[4], 2) + (":" + WriteTo(f, 5, tail));
    assert WriteTo(f, 3, tail) == Digits(f[3], 2) + (":" + WriteTo(f, 4, tail));
    assert WriteTo(f, 2, tail) == Digits(f[2], 2) + ("T" + WriteTo(f, 3, tail));
    assert WriteTo(f, 1, tail) == Digits(f[1], 2) + ("-" + WriteTo(f, 2, tail));
    assert WriteTo(f, 0, tail) == Digits(f[0], 4) + ("-" + WriteTo(f, 1, tail));
  }

  lemma FmtIs(t: Instant, f: seq<nat>, nanos: nat)
    requires f == FieldsOf(Millis(t)) && f[0] <= 9999 && nanos == Nanos(t) % 1_000_000_000
    ensures FmtNanos(t) == WriteTo(f, 0, Fraction(nanos) + "+00:00")
  {
  }

  lemma NanosOfSecond(t: Instant, seconds: int, nanos: nat)
    requires t == seconds * 1_000_000_000 + nanos && nanos < 1_000_000_000
    ensures Nanos(t) % 1_000_000_000 == nanos
  {
    var q := seconds + 62_167_219_200;
    assert Nanos(t) == q * 1_000_000_000 + nanos;
    Divide(q, nanos, 1_000_000_000);
  }

  /** d's text of an instant shows exactly its Gregorian date, its time of day
      and its fraction of a second. */
  lemma TextShowsDate(t: Instant, y: nat, m: nat, d: nat, h: nat, mi: nat, s: nat, nanos: nat)
    requires y <= 9999 && Gregorian.ValidDate(y, m, d) && Gregorian.ValidTime(h, mi, s) && nanos < 1_000_000_000
    requires t == Gregorian.UnixSeconds(y, m, d, h, mi, s) * 1_000_000_000 + nanos
    ensures FmtNanos(t) == Gregorian.DateText(y, m, d, Gregorian.TimeText(h, mi, s, Fraction(nanos) + "+00:00"))
  {
    var f := FieldsOf(Millis(t));
    Gregorian.InstantFields(t, y, m, d, h, mi, s, nanos);
    NanosOfSecond(t, Gregorian.UnixSeconds(y, m, d, h, mi, s), nanos);
    FmtIs(t, f, nanos);
    WrittenTo(f, Fraction(nanos) + "+00:00");
  }

  // ----------------------------------------------------------------- the due query

  predicate InEra(t: int) {
    FIRST <= t && YearOf(t) <= 9999
  }

  function DueText(t: int): string {
    if FIRST <= t then FmtNanos(t) else ""
  }

  /** What `fetch_due` selects from, as stored. */
  function DueTexts(jobs: Jobs, now: int): map<Id, string> {
    map id | id in jobs && jobs[id].status == Pending && Compare(DueText(jobs[id].nextAttemptAt), DueText(now)) <= 0 :: DueText(jobs[id].nextAttemptAt)
  }

  lemma DueOrder(t: int, u: int)
    requires InEra(t) && InEra(u)
    ensures Compare(DueText(t), DueText(u)) <= 0 <==> t <= u
  {
    NanosAreChronological(t, u);
  }

  /** The query on d's text has the answers of the query on instants. */
  lemma TextQueryIsChronological(jobs: Jobs, now: int, limit: nat, batch: seq<Id>)
    requires InEra(now) && forall id | id in jobs :: InEra(jobs[id].nextAttemptAt)
    ensures FirstByText(DueTexts(jobs, now), limit, batch) <==> Oldest(DueTimes(jobs, now), limit, batch)
  {
    var texts, times := DueTexts(jobs, now), DueTimes(jobs, now);
    SameDue(jobs, now);
    assert |texts| == |texts.Keys| && |times| == |times.Keys|;
    forall i, j | i in texts && j in texts ensures Compare(texts[i], texts[j]) <= 0 <==> times[i] <= times[j] {
      DueOrder(jobs[i].nextAttemptAt, jobs[j].nextAttemptAt);
    }
    SameAnswers(texts, times, limit, batch);
  }

  lemma SameDue(jobs: Jobs, now: int)
    requires InEra(now) && forall id | id in jobs :: InEra(jobs[id].nextAttemptAt)
    ensures DueTexts(jobs, now).Keys == DueTimes(jobs, now).Keys
  {
    forall id | id in jobs ensures Compare(DueText(jobs[id].nextAttemptAt), DueText(now)) <= 0 <==> jobs[id].nextAttemptAt <= now {
      DueOrder(jobs[id].nextAttemptAt, now);
    }
  }

  // ------------------------------------------------------- what a fetch can read

  /** `row_to_job` reads the times back only for years 0000 to 9999. */
  predicate Legible(job: Job) {
    InEra(job.nextAttemptAt) && InEra(job.createdAt)
  }

  predicate AllLegible(jobs: Jobs, batch: seq<Id>) {
    forall i | 0 <= i < |batch| :: batch[i] in jobs && Legible(jobs[batch[i]])
  }

  /** A batch that can be read is in the order of the instants. */
  lemma LegibleBatch(jobs: Jobs, now: int, limit: nat, batch: seq<Id>)
    requires InEra(now) && FirstByText(DueTexts(jobs, now), limit, batch) && AllLegible(jobs, batch)
    ensures forall i | 0 <= i < |batch| :: jobs[batch[i]].status == Pending && jobs[batch[i]].nextAttemptAt <= now
    ensures forall i, j | 0 <= i < j < |batch| :: batch[i] != batch[j] && jobs[batch[i]].nextAttemptAt <= jobs[batch[j]].nextAttemptAt
    ensures |batch| <= limit
  {
    var due := DueTexts(jobs, now);
    forall i | 0 <= i < |batch| ensures jobs[batch[i]].status == Pending && jobs[batch[i]].nextAttemptAt <= now {
      assert batch[i] in due;
      DueOrder(jobs[batch[i]].nextAttemptAt, now);
    }
    forall i, j | 0 <= i < j < |batch| ensures jobs[batch[i]].nextAttemptAt <= jobs[batch[j]].nextAttemptAt {
      assert batch[i] in due && batch[j] in due;
      DueOrder(jobs[batch[i]].nextAttemptAt, jobs[batch[j]].nextAttemptAt);
    }
  }

  /** ... and what it leaves out is no older. */
  lemma LegibleLeftOut(jobs: Jobs, now: int, limit: nat, batch: seq<Id>, id: Id)
    requires InEra(now) && FirstByText(DueTexts(jobs, now), limit, batch) && AllLegible(jobs, batch)
    requires id in jobs && jobs[id].status == Pending && InEra(jobs[id].nextAttemptAt) && jobs[id].nextAttemptAt <= now && id !in batch
    ensures |batch| == limit && forall i | 0 <= i < |batch| :: jobs[batch[i]].nextAttemptAt <= jobs[id].nextAttemptAt
  {
    var due := DueTexts(jobs, now);
    DueOrder(jobs[id].nextAttemptAt, now);
    TextSelection.LeftOutMeansFull(due, limit, batch, id);
    forall i | 0 <= i < |batch| ensures jobs[batch[i]].nextAttemptAt <= jobs[id].nextAttemptAt {
      assert batch[i] in due;
      DueOrder(jobs[batch[i]].nextAttemptAt, jobs[id].nextAttemptAt);
    }
  }

  lemma EraFirst(t: Instant)
    requires YearOf(t) <= 9999
    ensures FmtNanos(t) != "" && IsDigit(FmtNanos(t)[0])
  {
    var f := FieldsOf(Millis(t));
    assert FmtNanos(t)[0] == Digits(f[0], 4)[0];
  }

  lemma LaterFirst(t: Instant)
    requires YearOf(t) > 9999
    ensures Far(FmtNanos(t))
  {
    assert FmtNanos(t)[0] == '+';
  }

  /** A due time past the year 9999 sorts before all others. */
  lemma FarBefore(t: Instant, u: Instant)
    requires YearOf(t) > 9999 && YearOf(u) <= 9999
    ensures Compare(FmtNanos(t), FmtNanos(u)) < 0 && Compare(FmtNanos(u), FmtNanos(t)) > 0
  {
    LaterFirst(t);
    EraFirst(u);
  }

  /** A pending job due past the year 9999 is selected, or another one that
      cannot be read is, by every fetch that selects anything. */
  lemma FarDueJams(jobs: Jobs, now: int, limit: nat, batch: seq<Id>, id: Id)
    requires InEra(now) && limit >= 1 && FirstByText(DueTexts(jobs, now), limit, batch)
    requires id in jobs && jobs[id].status == Pending && FIRST <= jobs[id].nextAttemptAt && YearOf(jobs[id].nextAttemptAt) > 9999
    ensures !AllLegible(jobs, batch)
  {
    var due := DueTexts(jobs, now);
    FarBefore(jobs[id].nextAttemptAt, now);
    assert id in due && due.Keys != {};
    var first := batch[0];
    assert first in due && Compare(due[first], due[id]) <= 0 by { CompareEqual(due[id], due[id]); }
    if Legible(jobs[first]) { FarBefore(jobs[id].nextAttemptAt, jobs[first].nextAttemptAt); }
  }
}
