/** Text as SQLite compares it, and zero-padded decimal numbers. */
module TextOrder {

  function Order(x: int, y: int): int {
    if x < y then -1 else if x > y then 1 else 0
  }

  /** The first difference decides; the second comparison breaks a tie of the first. */
  function Then(first: int, second: int): int {
    if first != 0 then first else second
  }

  /** Bytewise comparison, as SQLite compares TEXT: negative, zero or positive. */
  function Compare(a: string, b: string): (c: int)
    decreases |a|
  {
    if a == "" || b == "" then Order(|a|, |b|)
    else Then(Order(a[0] as int, b[0] as int), Compare(a[1..], b[1..]))
  }

  lemma {:induction false} ComparePrefixed(a: string, b: string, u: string, v: string)
    requires |a| == |b|
    ensures Compare(a + u, b + v) == Then(Compare(a, b), Compare(u, v))
    decreases |a|
  {
    if a == "" {
      assert a + u == u && b + v == v;
    } else {
      assert (a + u)[1..] == a[1..] + u && (b + v)[1..] == b[1..] + v;
      ComparePrefixed(a[1..], b[1..], u, v);
    }
  }

  lemma {:induction false} CompareEqual(a: string, b: string)
    ensures Compare(a, b) == 0 <==> a == b
    decreases |a|
  {
    if a != "" && b != "" {
      CompareEqual(a[1..], b[1..]);
      assert a == [a[0]] + a[1..] && b == [b[0]] + b[1..];
    }
  }

  // ------------------------------------------------------------- decimal numbers

  function Pow10(w: nat): (p: nat)
    ensures p >= 1
  {
    if w == 0 then 1 else 10 * Pow10(w - 1)
  }

  function DigitChar(d: nat): char
    requires d < 10
  {
    '0' + d as char
  }

  predicate IsDigit(c: char) {
    '0' <= c <= '9'
  }

  /** `n` in `w` digits, zero-padded. */
  function Digits(n: nat, w: nat): (s: string)
    ensures |s| == w
    ensures AllDigits(s)
  {
    if w == 0 then "" else Digits(n / 10, w - 1) + [DigitChar(n % 10)]
  }

  predicate AllDigits(s: string) {
    forall i | 0 <= i < |s| :: IsDigit(s[i])
  }

  function DigitValue(c: char): (d: nat)
    requires IsDigit(c)
    ensures d < 10 && DigitChar(d) == c
  {
    c as int - '0' as int
  }

  function Number(s: string): nat
    requires AllDigits(s)
  {
    if s == "" then 0 else 10 * Number(s[..|s| - 1]) + DigitValue(s[|s| - 1])
  }

  lemma {:induction false} NumberOfDigits(n: nat, w: nat)
    requires n < Pow10(w)
    ensures Number(Digits(n, w)) == n
  {
    if w > 0 {
      NumberOfDigits(n / 10, w - 1);
      assert Digits(n, w)[..w - 1] == Digits(n / 10, w - 1);
    }
  }

  lemma {:induction false} DigitsOfNumber(s: string)
    requires AllDigits(s)
    ensures Number(s) < Pow10(|s|) && Digits(Number(s), |s|) == s
    decreases |s|
  {
    if s != "" {
      var init, last := s[..|s| - 1], DigitValue(s[|s| - 1]);
      DigitsOfNumber(init);
      assert Number(s) == 10 * Number(init) + last;
      assert Number(s) / 10 == Number(init) && Number(s) % 10 == last;
      assert DigitChar(last) == s[|s| - 1];
      assert s == init + [s[|s| - 1]];
    }
  }

  /** Zero-padded numbers compare as numbers. */
  lemma {:induction false} CompareDigits(m: nat, n: nat, w: nat)
    requires m < Pow10(w) && n < Pow10(w)
    ensures Compare(Digits(m, w), Digits(n, w)) == Order(m, n)
  {
    if w > 0 {
      CompareDigits(m / 10, n / 10, w - 1);
      ComparePrefixed(Digits(m / 10, w - 1), Digits(n / 10, w - 1), [DigitChar(m % 10)], [DigitChar(n % 10)]);
      RadixOrder(m, n, 10);
    }
  }

  lemma RadixOrder(x: nat, y: nat, n: nat)
    requires n > 0
    ensures Order(x, y) == Then(Order(x / n, y / n), Order(x % n, y % n))
  {
    var p, q := x / n, y / n;
    assert x == n * p + x % n && y == n * q + y % n;
    assert n * p - n * q == n * (p - q);
    MultipleIsFar(n, p - q);
  }

  lemma MultipleIsFar(n: int, d: int)
    requires n > 0
    ensures d >= 1 ==> n * d >= n
    ensures d <= -1 ==> n * d <= -n
  {
    if d >= 1 {
      NotNegative(n, d - 1);
      assert n * d == n * (d - 1) + n;
    } else if d <= -1 {
      NotNegative(n, -1 - d);
      assert n * d == -(n * (-1 - d)) - n;
    }
  }

  lemma NotNegative(a: nat, b: nat)
    ensures a * b >= 0
  {
  }

  /** Division with remainder: the quotient decides, then the remainder. */
  lemma Divide(q: nat, r: nat, n: nat)
    requires r < n
    ensures (q * n + r) / n == q && (q * n + r) % n == r
  {
    var x := q * n + r;
    assert x == n * (x / n) + x % n;
    assert n * (q - x / n) == x % n - r;
    MultipleIsFar(n, q - x / n);
  }
}

/** `SELECT ... ORDER BY due_time LIMIT n` over a TEXT column. */
module TextSelection {
  import opened Common
  import opened Selection
  import opened TextOrder

  ghost predicate FirstByText(due: map<Id, string>, limit: nat, batch: seq<Id>) {
    && |batch| == Min(limit, |due|)
    && (forall i | 0 <= i < |batch| :: batch[i] in due)
    && (forall i, j | 0 <= i < j < |batch| :: batch[i] != batch[j] && Compare(due[batch[i]], due[batch[j]]) <= 0)
    && (forall i, id | 0 <= i < |batch| && id in due && id !in batch :: Compare(due[batch[i]], due[id]) <= 0)
  }

  lemma LeftOutMeansFull(due: map<Id, string>, limit: nat, batch: seq<Id>, id: Id)
    requires FirstByText(due, limit, batch) && id in due && id !in batch
    ensures |batch| == limit && forall i | 0 <= i < |batch| :: Compare(due[batch[i]], due[id]) <= 0
  {
    FewerThanAll(due.Keys, batch, id);
    assert |due| == |due.Keys|;
  }

  /** Where text and times order alike, so do the answers. */
  lemma SameAnswers(texts: map<Id, string>, times: map<Id, int>, limit: nat, batch: seq<Id>)
    requires texts.Keys == times.Keys && |texts| == |times|
    requires forall i, j | i in texts && j in texts :: Compare(texts[i], texts[j]) <= 0 <==> times[i] <= times[j]
    ensures FirstByText(texts, limit, batch) <==> Oldest(times, limit, batch)
  {
  }
}

/** The Gregorian calendar as RFC 3339 uses it, from the year 0000. */
module Calendar {
  import opened TextOrder

  predicate Leap(y: nat) {
    y % 4 == 0 && (y % 100 != 0 || y % 400 == 0)
  }

  function YearLength(y: nat): nat {
    if Leap(y) then 366 else 365
  }

  /** Months count from 0; past December the length does not matter. */
  function MonthLength(leap: bool, m: nat): nat {
    if m == 1 then (if leap then 29 else 28)
    else if m == 3 || m == 5 || m == 8 || m == 10 then 30
    else 31
  }

  /** Consecutive blocks of days: the years, or the months of a year. */
  datatype Blocks = Years | Months(leap: bool)
  {
    function Size(i: nat): (n: nat)
      ensures n > 0
    {
      match this
      case Years => YearLength(i)
      case Months(leap) => MonthLength(leap, i)
    }

    /** The days before block `i`. */
    function Start(i: nat): nat {
      if i == 0 then 0 else Start(i - 1) + Size(i - 1)
    }

    /** The block that day `x` falls in, searching from block `i` whose start
        has been subtracted, and the offset in it. */
    function Locate(x: nat, i: nat): (r: Place)
      ensures r.offset < Size(r.block) && r.block >= i
      decreases x
    {
      if x < Size(i) then Place(i, x) else Locate(x - Size(i), i + 1)
    }
  }

  datatype Place = Place(block: nat, offset: nat)

  lemma {:induction false} LocateAt(b: Blocks, x: nat, i: nat)
    ensures b.Start(b.Locate(x, i).block) + b.Locate(x, i).offset == b.Start(i) + x
    decreases x
  {
    if x >= b.Size(i) {
      LocateAt(b, x - b.Size(i), i + 1);
      assert b.Start(i + 1) == b.Start(i) + b.Size(i);
    }
  }

  lemma {:induction false} StartGrows(b: Blocks, i: nat, j: nat)
    requires i < j
    ensures b.Start(i) + b.Size(i) <= b.Start(j)
    decreases j
  {
    if i < j - 1 { StartGrows(b, i, j - 1); }
  }

  /** Block first, offset second: the order of days. */
  lemma BlockOrder(b: Blocks, p: Place, q: Place)
    requires p.offset < b.Size(p.block) && q.offset < b.Size(q.block)
    ensures Order(b.Start(p.block) + p.offset, b.Start(q.block) + q.offset) == Then(Order(p.block, q.block), Order(p.offset, q.offset))
  {
    if p.block < q.block { StartGrows(b, p.block, q.block); }
    if q.block < p.block { StartGrows(b, q.block, p.block); }
  }

  lemma LocateInverse(b: Blocks, p: Place)
    requires p.offset < b.Size(p.block)
    ensures b.Locate(b.Start(p.block) + p.offset, 0) == p
  {
    var r := b.Locate(b.Start(p.block) + p.offset, 0);
    LocateAt(b, b.Start(p.block) + p.offset, 0);
    BlockOrder(b, p, r);
  }

  lemma MonthStarts(leap: bool)
    ensures Months(leap).Start(12) == if leap then 366 else 365
  {
    var m := Months(leap);
    assert m.Start(2) == m.Start(1) + m.Size(1);
    assert m.Start(4) == m.Start(3) + m.Size(3);
    assert m.Start(6) == m.Start(5) + m.Size(5);
    assert m.Start(8) == m.Start(7) + m.Size(7);
    assert m.Start(10) == m.Start(9) + m.Size(9);
  }

  lemma MonthInYear(y: nat, day: nat)
    requires day < YearLength(y)
    ensures Months(Leap(y)).Locate(day, 0).block < 12
  {
    var m := Months(Leap(y));
    var r := m.Locate(day, 0);
    LocateAt(m, day, 0);
    MonthStarts(Leap(y));
    if r.block > 12 { StartGrows(m, 12, r.block); }
  }

  lemma DayInYear(y: nat, p: Place)
    requires p.block < 12 && p.offset < MonthLength(Leap(y), p.block)
    ensures Months(Leap(y)).Start(p.block) + p.offset < YearLength(y)
  {
    MonthStarts(Leap(y));
    StartGrows(Months(Leap(y)), p.block, 12);
  }

  /** The Gregorian count of days before a year. */
  function DaysBefore(y: nat): int {
    365 * y + (y + 3) / 4 - (y + 99) / 100 + (y + 399) / 400
  }

  lemma {:induction false} DaysBeforeYear(y: nat)
    ensures Years.Start(y) == DaysBefore(y)
  {
    if y > 0 {
      DaysBeforeYear(y - 1);
      NextYear(y - 1);
    }
  }

  /** How many multiples of 4, of 100 and of 400 come before the next year. */
  lemma NextMultiple4(y: nat)
    ensures (y + 4) / 4 == (y + 3) / 4 + if y % 4 == 0 then 1 else 0
  {
  }

  lemma NextMultiple100(y: nat)
    ensures (y + 100) / 100 == (y + 99) / 100 + if y % 100 == 0 then 1 else 0
  {
  }

  lemma NextMultiple400(y: nat)
    ensures (y + 400) / 400 == (y + 399) / 400 + if y % 400 == 0 then 1 else 0
  {
  }

  lemma LeapRules(y: nat)
    ensures (y % 100 == 0 ==> y % 4 == 0) && (y % 400 == 0 ==> y % 100 == 0)
  {
    if y % 100 == 0 { assert y == 4 * (25 * (y / 100)); }
    if y % 400 == 0 { assert y == 100 * (4 * (y / 400)); }
  }

  lemma NextYear(y: nat)
    ensures DaysBefore(y + 1) == DaysBefore(y) + YearLength(y)
  {
    NextMultiple4(y);
    NextMultiple100(y);
    NextMultiple400(y);
    LeapRules(y);
  }
}

/** k's timestamp column: RFC 3339 text with millisecond precision. */
module Timestamp {
  import opened Common
  import opened TextOrder
  import opened Calendar

  // --------------------------------------------------------------------- instants

  /** Milliseconds from 0000-01-01 to 1970-01-01. */
  const EPOCH_MS: nat := 62_167_219_200_000

  lemma EpochIs1970(y: nat)
    requires y == 1970
    ensures Years.Start(y) * 86_400_000 == EPOCH_MS
  {
    DaysBeforeYear(y);
    assert DaysBefore(y) == 719_528;
  }

  /** The start of the year 0000. */
  const FIRST: int := -62_167_219_200_000_000_000

  /** Nanoseconds since 1970, no earlier than that. */
  type Instant = t: int | FIRST <= t witness 0

  /** Whole milliseconds since the start of the year 0000. */
  function Millis(t: Instant): nat {
    t / 1_000_000 + EPOCH_MS
  }

  function DayOf(ms: nat): nat {
    ms / 1000 / 60 / 60 / 24
  }

  function DateOf(ms: nat): Place {
    Years.Locate(DayOf(ms), 0)
  }

  function MonthOf(ms: nat): Place {
    Months(Leap(DateOf(ms).block)).Locate(DateOf(ms).offset, 0)
  }

  function YearOf(t: Instant): nat {
    DateOf(Millis(t)).block
  }

  // ------------------------------------------------------------------- the layout

  const PARTS: nat := 7

  /** Year, month, day, hour, minute, second, millisecond. */
  function FieldsOf(ms: nat): (f: seq<nat>)
    ensures |f| == PARTS
  {
    [DateOf(ms).block, MonthOf(ms).block + 1, MonthOf(ms).offset + 1,
     ms / 1000 / 60 / 60 % 24, ms / 1000 / 60 % 60, ms / 1000 % 60, ms % 1000]
  }

  function Width(k: nat): nat {
    if k == 0 then 4 else if k == 6 then 3 else 2
  }

  /** What follows the k-th field. */
  function End(k: nat): char {
    if k <= 1 then '-' else if k == 2 then 'T' else if k <= 4 then ':' else if k == 5 then '.' else 'Z'
  }

  /** The fields from the k-th on. */
  function Write(f: seq<nat>, k: nat): string
    requires |f| == PARTS && k <= PARTS
    decreases PARTS - k
  {
    if k == PARTS then "" else Digits(f[k], Width(k)) + ([End(k)] + Write(f, k + 1))
  }

  function DecimalWidth(y: nat): nat {
    if y < 10 then 1 else 1 + DecimalWidth(y / 10)
  }

  /** `to_rfc3339_opts(Millis, true)`; years past 9999 get a sign and more digits. */
  function FmtTs(t: Instant): string {
    var y, f := YearOf(t), FieldsOf(Millis(t));
    if y <= 9999 then Write(f, 0) else "+" + Digits(y, DecimalWidth(y)) + "-" + Write(f, 1)
  }

  // ------------------------------------------------------------------- the order

  /** The fields from the k-th on have their widths. */
  predicate Fits(f: seq<nat>, k: nat) {
    |f| == PARTS && forall i | k <= i < PARTS :: f[i] < Pow10(Width(i))
  }

  function CompareFrom(f: seq<nat>, g: seq<nat>, k: nat): int
    requires |f| == |g| == PARTS && k <= PARTS
    decreases PARTS - k
  {
    if k == PARTS then 0 else Then(Order(f[k], g[k]), CompareFrom(f, g, k + 1))
  }

  /** Fixed-width fields compare as numbers, the first difference deciding. */
  lemma {:induction false} CompareWritten(f: seq<nat>, g: seq<nat>, k: nat)
    requires Fits(f, k) && Fits(g, k) && k <= PARTS
    ensures Compare(Write(f, k), Write(g, k)) == CompareFrom(f, g, k)
    decreases PARTS - k
  {
    if k < PARTS {
      CompareWritten(f, g, k + 1);
      CompareDigits(f[k], g[k], Width(k));
      ComparePrefixed([End(k)], [End(k)], Write(f, k + 1), Write(g, k + 1));
      ComparePrefixed(Digits(f[k], Width(k)), Digits(g[k], Width(k)), [End(k)] + Write(f, k + 1), [End(k)] + Write(g, k + 1));
    }
  }

  lemma FieldsFit(ms: nat)
    ensures Fits(FieldsOf(ms), 1) && (DateOf(ms).block <= 9999 ==> Fits(FieldsOf(ms), 0))
  {
    MonthInYear(DateOf(ms).block, DateOf(ms).offset);
    assert Pow10(2) == 100;
    assert Pow10(3) == 1000 && Pow10(4) == 10 * Pow10(3);
  }

  function CompareTimes(f: seq<nat>, g: seq<nat>): int
    requires |f| == |g| == PARTS
  {
    Then(Order(f[3], g[3]), Then(Order(f[4], g[4]), Then(Order(f[5], g[5]), Order(f[6], g[6]))))
  }

  lemma DateThenTime(f: seq<nat>, g: seq<nat>)
    requires |f| == |g| == PARTS
    ensures CompareFrom(f, g, 0) == Then(Order(f[0], g[0]), Then(Order(f[1], g[1]), Then(Order(f[2], g[2]), CompareTimes(f, g))))
  {
    assert CompareFrom(f, g, 5) == Then(Order(f[5], g[5]), Order(f[6], g[6]));
    assert CompareFrom(f, g, 3) == Then(Order(f[3], g[3]), Then(Order(f[4], g[4]), CompareFrom(f, g, 5)));
    assert CompareFrom(f, g, 1) == Then(Order(f[1], g[1]), Then(Order(f[2], g[2]), CompareFrom(f, g, 3)));
  }

  /** Chronological order is the order of days, then of the times of day. */
  lemma ClockOrder(x: nat, y: nat)
    ensures Order(x, y) == Then(Order(DayOf(x), DayOf(y)), CompareTimes(FieldsOf(x), FieldsOf(y)))
  {
    RadixOrder(x, y, 1000);
    RadixOrder(x / 1000, y / 1000, 60);
    RadixOrder(x / 1000 / 60, y / 1000 / 60, 60);
    RadixOrder(x / 1000 / 60 / 60, y / 1000 / 60 / 60, 24);
  }

  /** The order of days is the order of years, then of months and days. */
  lemma DateOrder(x: nat, y: nat)
    ensures DateOf(x).block != DateOf(y).block ==> Order(DayOf(x), DayOf(y)) == Order(DateOf(x).block, DateOf(y).block)
    ensures DateOf(x).block == DateOf(y).block ==>
      Order(DayOf(x), DayOf(y)) == Then(Order(MonthOf(x).block, MonthOf(y).block), Order(MonthOf(x).offset, MonthOf(y).offset))
  {
    LocateAt(Years, DayOf(x), 0);
    LocateAt(Years, DayOf(y), 0);
    BlockOrder(Years, DateOf(x), DateOf(y));
    if DateOf(x).block == DateOf(y).block {
      var months := Months(Leap(DateOf(x).block));
      LocateAt(months, DateOf(x).offset, 0);
      LocateAt(months, DateOf(y).offset, 0);
      BlockOrder(months, MonthOf(x), MonthOf(y));
    }
  }

  lemma FieldsOrder(x: nat, y: nat)
    ensures CompareFrom(FieldsOf(x), FieldsOf(y), 0) == Order(x, y)
  {
    ClockOrder(x, y);
    DateOrder(x, y);
    DateThenTime(FieldsOf(x), FieldsOf(y));
  }

  /** For years 0000 to 9999, comparing the text is comparing the instants,
      floored to the millisecond. */
  lemma TextIsChronological(t: Instant, u: Instant)
    requires YearOf(t) <= 9999 && YearOf(u) <= 9999
    ensures Compare(FmtTs(t), FmtTs(u)) == Order(Millis(t), Millis(u))
  {
    FieldsFit(Millis(t));
    FieldsFit(Millis(u));
    CompareWritten(FieldsOf(Millis(t)), FieldsOf(Millis(u)), 0);
    FieldsOrder(Millis(t), Millis(u));
  }

  /** `y` without the digits after its first `w`. */
  function Leading(y: nat, w: nat): nat
    requires w >= 1
  {
    if DecimalWidth(y) <= w then y else Leading(y / 10, w)
  }

  lemma {:induction false} WidthFits(y: nat)
    ensures y < Pow10(DecimalWidth(y))
  {
    if y >= 10 { WidthFits(y / 10); }
  }

  lemma {:induction false} WidthGrows(x: nat, y: nat)
    requires x <= y
    ensures DecimalWidth(x) <= DecimalWidth(y)
    decreases y
  {
    if x >= 10 { WidthGrows(x / 10, y / 10); }
  }

  lemma {:induction false} LeadingDigits(y: nat, w: nat) returns (rest: string)
    requires 1 <= w <= DecimalWidth(y)
    ensures Digits(y, DecimalWidth(y)) == Digits(Leading(y, w), w) + rest && Leading(y, w) < Pow10(w)
    ensures AllDigits(rest) && |rest| == DecimalWidth(y) - w
    decreases y
  {
    if DecimalWidth(y) == w {
      WidthFits(y);
      rest := "";
    } else {
      var more := LeadingDigits(y / 10, w);
      rest := more + [DigitChar(y % 10)];
      assert Digits(Leading(y, w), w) + rest == Digits(y / 10, DecimalWidth(y / 10)) + [DigitChar(y % 10)];
    }
  }

  /** Two years past 9999, the later with more digits: '-' sorts before them. */
  lemma CompareWidths(x: nat, y: nat, u: string, v: string)
    requires DecimalWidth(x) < DecimalWidth(y)
    ensures Compare(Digits(x, DecimalWidth(x)) + ("-" + u), Digits(y, DecimalWidth(y)) + ("-" + v)) < 0 <==> x <= Leading(y, DecimalWidth(x))
  {
    var w := DecimalWidth(x);
    var rest := LeadingDigits(y, w);
    var p := Leading(y, w);
    WidthFits(x);
    CompareDigits(x, p, w);
    ComparePrefixed(Digits(x, w), Digits(p, w), "-" + u, rest + ("-" + v));
    assert Digits(y, DecimalWidth(y)) + ("-" + v) == Digits(p, w) + (rest + ("-" + v));
    assert (rest + ("-" + v))[0] == rest[0] && ("-" + u)[0] == '-' && IsDigit(rest[0]);
  }

  lemma CompareSameWidth(x: nat, y: nat, u: string, v: string)
    requires DecimalWidth(x) == DecimalWidth(y)
    ensures Compare(Digits(x, DecimalWidth(x)) + ("-" + u), Digits(y, DecimalWidth(y)) + ("-" + v)) == Then(Order(x, y), Compare(u, v))
  {
    WidthFits(x);
    WidthFits(y);
    CompareDigits(x, y, DecimalWidth(x));
    ComparePrefixed("-", "-", u, v);
    ComparePrefixed(Digits(x, DecimalWidth(x)), Digits(y, DecimalWidth(y)), "-" + u, "-" + v);
  }

  /** A later instant sorts later exactly when it is before the year 10000, or
      both are past 9999 and the earlier year is at most as many leading
      digits of the later one as it has itself. */
  lemma TextOrderExactly(t: Instant, u: Instant)
    requires Millis(t) < Millis(u)
    ensures Compare(FmtTs(t), FmtTs(u)) < 0 <==>
      YearOf(u) <= 9999 || (YearOf(t) > 9999 && YearOf(t) <= Leading(YearOf(u), DecimalWidth(YearOf(t))))
  {
    FieldsOrder(Millis(t), Millis(u));
    if YearOf(u) <= 9999 {
      TextIsChronological(t, u);
    } else if YearOf(t) <= 9999 {
      FirstChars(t, u);
    } else {
      FarYears(t, u);
    }
  }

  /** More digits alone do not spoil the order: 10000 sorts before 200000, and
      99999 after 100000. */
  lemma WiderYears(t: Instant, u: Instant)
    ensures YearOf(t) == 10000 && YearOf(u) == 200000 ==> Compare(FmtTs(t), FmtTs(u)) < 0
    ensures YearOf(t) == 99999 && YearOf(u) == 100000 ==> Compare(FmtTs(t), FmtTs(u)) >= 0
  {
    FieldsOrder(Millis(t), Millis(u));
    if YearOf(t) < YearOf(u) {
      TextOrderExactly(t, u);
      FiveDigits();
    }
  }

  lemma FiveDigits()
    ensures DecimalWidth(10000) == 5 && DecimalWidth(99999) == 5
    ensures Leading(200000, 5) == 20000 && Leading(100000, 5) == 10000
  {
  }

  lemma FarText(t: Instant)
    requires YearOf(t) > 9999
    ensures FmtTs(t) == "+" + (Digits(YearOf(t), DecimalWidth(YearOf(t))) + ("-" + Write(FieldsOf(Millis(t)), 1)))
  {
  }

  lemma FarYears(t: Instant, u: Instant)
    requires 9999 < YearOf(t) <= YearOf(u) && CompareFrom(FieldsOf(Millis(t)), FieldsOf(Millis(u)), 0) < 0
    ensures Compare(FmtTs(t), FmtTs(u)) < 0 <==> YearOf(t) <= Leading(YearOf(u), DecimalWidth(YearOf(t)))
  {
    FarText(t);
    FarText(u);
    FieldsFit(Millis(t));
    FieldsFit(Millis(u));
    CompareFar(YearOf(t), YearOf(u), FieldsOf(Millis(t)), FieldsOf(Millis(u)));
  }

  lemma CompareFar(x: nat, y: nat, f: seq<nat>, g: seq<nat>)
    requires 9 < x <= y && Fits(f, 1) && Fits(g, 1) && f[0] == x && g[0] == y && CompareFrom(f, g, 0) < 0
    ensures Compare("+" + (Digits(x, DecimalWidth(x)) + ("-" + Write(f, 1))), "+" + (Digits(y, DecimalWidth(y)) + ("-" + Write(g, 1)))) < 0
      <==> x <= Leading(y, DecimalWidth(x))
  {
    var a, b := Digits(x, DecimalWidth(x)) + ("-" + Write(f, 1)), Digits(y, DecimalWidth(y)) + ("-" + Write(g, 1));
    ComparePrefixed("+", "+", a, b);
    WidthGrows(x, y);
    if DecimalWidth(x) < DecimalWidth(y) {
      CompareWidths(x, y, Write(f, 1), Write(g, 1));
    } else {
      CompareSameWidth(x, y, Write(f, 1), Write(g, 1));
      CompareWritten(f, g, 1);
    }
  }

  lemma FirstChars(t: Instant, u: Instant)
    requires YearOf(t) <= 9999 < YearOf(u)
    ensures Compare(FmtTs(t), FmtTs(u)) > 0
  {
    assert FmtTs(t)[0] == Digits(YearOf(t), 4)[0];
    assert FmtTs(u)[0] == '+';
  }

  // --------------------------------------------------------------------- parsing

  /** Reads the fields from the k-th on, if the text has that form. */
  function Read(s: string, k: nat): Option<seq<nat>>
    requires k <= PARTS
    decreases PARTS - k
  {
    if k == PARTS then (if s == "" then Some([]) else None)
    else
      var w := Width(k);
      if |s| <= w || s[w] != End(k) || !AllDigits(s[..w]) then None
      else
        match Read(s[w + 1..], k + 1)
        case None => None
        case Some(rest) => Some([Number(s[..w])] + rest)
  }

  predicate IsDate(f: seq<nat>) {
    && |f| == PARTS
    && 1 <= f[1] <= 12 && 1 <= f[2] <= MonthLength(Leap(f[0]), f[1] - 1)
    && f[3] < 24 && f[4] < 60 && f[5] < 60 && f[6] < 1000
  }

  function DayNumber(f: seq<nat>): nat
    requires IsDate(f)
  {
    Years.Start(f[0]) + (Months(Leap(f[0])).Start(f[1] - 1) + (f[2] - 1))
  }

  function MillisOf(f: seq<nat>): nat
    requires IsDate(f)
  {
    (((DayNumber(f) * 24 + f[3]) * 60 + f[4]) * 60 + f[5]) * 1000 + f[6]
  }

  /** `parse_ts` on text of the stored form: the instant in milliseconds. */
  function ParseTs(s: string): Option<nat> {
    match Read(s, 0)
    case None => None
    case Some(f) => if IsDate(f) then Some(MillisOf(f)) else None
  }

  lemma Cons<T>(x: T, rest: seq<T>)
    ensures ([x] + rest)[0] == x && ([x] + rest)[1..] == rest
  {
  }

  lemma Suffix<T>(f: seq<T>, k: nat)
    requires k < |f|
    ensures f[k..] == [f[k]] + f[k + 1..]
  {
  }

  lemma {:induction false} ReadWritten(f: seq<nat>, k: nat)
    requires Fits(f, k) && k <= PARTS
    ensures Read(Write(f, k), k) == Some(f[k..])
    decreases PARTS - k
  {
    if k < PARTS {
      ReadWritten(f, k + 1);
      Suffix(f, k);
      NumberOfDigits(f[k], Width(k));
      ReadCons(Digits(f[k], Width(k)), Write(f, k + 1), k);
    }
  }

  /** Reading a field that is followed by text of the right form. */
  lemma ReadCons(digits: string, more: string, k: nat)
    requires k < PARTS && |digits| == Width(k) && AllDigits(digits) && Read(more, k + 1).Some?
    ensures Read(digits + ([End(k)] + more), k) == Some([Number(digits)] + Read(more, k + 1).value)
  {
    var s, w := digits + ([End(k)] + more), Width(k);
    assert s[..w] == digits && s[w] == End(k) && s[w + 1..] == more;
  }

  lemma {:induction false} WriteRead(s: string, f: seq<nat>, k: nat)
    requires k <= PARTS && |f| == PARTS && Read(s, k) == Some(f[k..])
    ensures Write(f, k) == s
    decreases PARTS - k
  {
    if k == PARTS {
      ReadEnd(s, f);
    } else {
      var digits, more := ReadStep(s, f, k);
      WriteRead(more, f, k + 1);
      WriteStep(digits, more, f, k);
    }
  }

  lemma ReadEnd(s: string, f: seq<nat>)
    requires |f| == PARTS && Read(s, PARTS) == Some(f[PARTS..])
    ensures Write(f, PARTS) == s
  {
  }

  lemma WriteStep(digits: string, more: string, f: seq<nat>, k: nat)
    requires k < PARTS && |f| == PARTS && |digits| == Width(k) && AllDigits(digits)
    requires f[k] == Number(digits) && Write(f, k + 1) == more
    ensures Write(f, k) == digits + ([End(k)] + more)
  {
    DigitsOfNumber(digits);
  }

  lemma FourDigitYear(s: string, f: seq<nat>)
    requires |f| == PARTS && Read(s, 0) == Some(f[0..])
    ensures f[0] <= 9999
  {
    var digits, more := ReadStep(s, f, 0);
    DigitsOfNumber(digits);
    assert Pow10(3) == 1000 && Pow10(4) == 10 * Pow10(3);
  }

  lemma ReadStep(s: string, f: seq<nat>, k: nat) returns (digits: string, more: string)
    requires k < PARTS && |f| == PARTS && Read(s, k) == Some(f[k..])
    ensures |digits| == Width(k) && AllDigits(digits) && f[k] == Number(digits)
    ensures Read(more, k + 1) == Some(f[k + 1..]) && s == digits + ([End(k)] + more)
  {
    FirstField(s, k);
    Suffix(f, k);
    digits, more := s[..Width(k)], s[Width(k) + 1..];
    SameHead(f[k], f[k + 1..], Number(digits), Read(more, k + 1).value);
  }

  lemma FirstField(s: string, k: nat)
    requires k < PARTS && Read(s, k).Some?
    ensures |s| > Width(k) && AllDigits(s[..Width(k)]) && s == s[..Width(k)] + ([End(k)] + s[Width(k) + 1..])
    ensures Read(s[Width(k) + 1..], k + 1).Some?
    ensures Read(s, k).value == [Number(s[..Width(k)])] + Read(s[Width(k) + 1..], k + 1).value
  {
    CutAt(s, Width(k));
  }

  lemma CutAt(s: string, w: nat)
    ensures |s| > w ==> s == s[..w] + ([s[w]] + s[w + 1..])
  {
  }

  lemma SameHead<T>(x: T, rest: seq<T>, y: T, other: seq<T>)
    requires [x] + rest == [y] + other
    ensures x == y && rest == other
  {
    Cons(x, rest);
    Cons(y, other);
  }

  lemma FieldsAreDate(ms: nat)
    ensures IsDate(FieldsOf(ms)) && MillisOf(FieldsOf(ms)) == ms
  {
    LocateAt(Years, DayOf(ms), 0);
    LocateAt(Months(Leap(DateOf(ms).block)), DateOf(ms).offset, 0);
    MonthInYear(DateOf(ms).block, DateOf(ms).offset);
  }

  /** Parsing what was stored gives the instant back, floored to the millisecond. */
  lemma ParseFormatted(t: Instant)
    requires YearOf(t) <= 9999
    ensures ParseTs(FmtTs(t)) == Some(Millis(t))
  {
    var f := FieldsOf(Millis(t));
    FieldsFit(Millis(t));
    ReadWritten(f, 0);
    assert f[0..] == f;
    FieldsAreDate(Millis(t));
  }

  lemma MillisInverse(f: seq<nat>)
    requires IsDate(f)
    ensures FieldsOf(MillisOf(f)) == f
  {
    var months, p := Months(Leap(f[0])), Place(f[1] - 1, f[2] - 1);
    Divide(((DayNumber(f) * 24 + f[3]) * 60 + f[4]) * 60 + f[5], f[6], 1000);
    Divide((DayNumber(f) * 24 + f[3]) * 60 + f[4], f[5], 60);
    Divide(DayNumber(f) * 24 + f[3], f[4], 60);
    Divide(DayNumber(f), f[3], 24);
    DayInYear(f[0], p);
    LocateInverse(Years, Place(f[0], months.Start(p.block) + p.offset));
    LocateInverse(months, p);
  }

  /** ... and text that parses is the stored form of its instant. */
  lemma FormatParsed(s: string, t: Instant)
    requires ParseTs(s) == Some(Millis(t))
    ensures FmtTs(t) == s && YearOf(t) <= 9999
  {
    var f := Read(s, 0).value;
    assert f[0..] == f;
    WriteRead(s, f, 0);
    FourDigitYear(s, f);
    MillisInverse(f);
  }

  // -------------------------------------------------------------- the stored column

  /** Text that `parse_ts` reads back. */
  predicate Stored(s: string) {
    ParseTs(s).Some?
  }

  function MsOf(s: string): nat {
    match ParseTs(s) case Some(ms) => ms case None => 0
  }

  lemma InstantOf(s: string) returns (t: Instant)
    requires Stored(s)
    ensures Millis(t) == MsOf(s) && FmtTs(t) == s && YearOf(t) <= 9999
  {
    t := InstantAt(MsOf(s));
    FormatParsed(s, t);
  }

  lemma InstantAt(ms: nat) returns (t: Instant)
    ensures Millis(t) == ms
  {
    t := (ms - EPOCH_MS) * 1_000_000;
  }

  /** On the column, the comparisons of `WHERE next_attempt_at <= ?` and
      `ORDER BY next_attempt_at` are comparisons of instants. */
  lemma StoredOrder(a: string, b: string)
    requires Stored(a) && Stored(b)
    ensures Compare(a, b) == Order(MsOf(a), MsOf(b))
  {
    var t := InstantOf(a);
    var u := InstantOf(b);
    TextIsChronological(t, u);
  }

  /** Text that starts with the sign of a year past 9999. */
  predicate Far(s: string) {
    s != "" && s[0] == '+'
  }

  lemma StoredFirst(s: string)
    requires Stored(s)
    ensures s != "" && IsDigit(s[0])
  {
    var t := InstantOf(s);
    assert FmtTs(t)[0] == Digits(YearOf(t), 4)[0];
  }

  /** ... and sorts before all text of the years 0000 to 9999. */
  lemma FarFirst(s: string, b: string)
    requires Far(s) && Stored(b)
    ensures Compare(s, b) < 0 && Compare(b, s) > 0
  {
    StoredFirst(b);
  }

  /** The text written for an instant; by FormatParsed there is no other for
      years up to 9999. */
  method StampOf(t: Instant) returns (s: string)
    ensures s == FmtTs(t)
    ensures YearOf(t) <= 9999 ==> Stored(s) && MsOf(s) == Millis(t)
    ensures YearOf(t) > 9999 ==> Far(s)
  {
    if YearOf(t) <= 9999 { ParseFormatted(t); } else { FarText(t); }
    s := FmtTs(t);
  }
}
