/** Which text stands for which date: the layout of the timestamp columns and
    the Gregorian date they show, stated without the search that computes it. */
module Gregorian {
  import opened Common
  import opened TextOrder
  import opened Calendar
  import opened Timestamp

  /** The days of an ordinary year before each month, and before the next year. */
  const BEFORE_MONTH: seq<nat> := [0, 31, 59, 90, 120, 151, 181, 212, 243, 273, 304, 334, 365]

  predicate LeapYear(y: nat) {
    (y % 4 == 0 && y % 100 != 0) || y % 400 == 0
  }

  /** The leap day counts from March on. */
  function BeforeMonth(y: nat, m: nat): nat
    requires 1 <= m <= 13
  {
    BEFORE_MONTH[m - 1] + if m > 2 && LeapYear(y) then 1 else 0
  }

  predicate ValidDate(y: nat, m: nat, d: nat) {
    1 <= m <= 12 && 1 <= d <= BeforeMonth(y, m + 1) - BeforeMonth(y, m)
  }

  predicate ValidTime(h: nat, mi: nat, s: nat) {
    h < 24 && mi < 60 && s < 60
  }

  /** Days from 0000-01-01. */
  function DaysTo(y: nat, m: nat, d: nat): int
    requires ValidDate(y, m, d)
  {
    365 * y + (y + 3) / 4 - (y + 99) / 100 + (y + 399) / 400 + BeforeMonth(y, m) + d - 1
  }

  /** Seconds from 1970-01-01, day 719528 after that. */
  function UnixSeconds(y: nat, m: nat, d: nat, h: nat, mi: nat, s: nat): int
    requires ValidDate(y, m, d)
  {
    (DaysTo(y, m, d) - 719_528) * 86_400 + h * 3600 + mi * 60 + s
  }

  // ------------------------------------------------------------- the search agrees

  lemma EarlyMonths(leap: bool)
    ensures var m := Months(leap);
      m.Start(0) == 0 && m.Start(1) == 31 && m.Start(2) == (if leap then 60 else 59) && m.Start(3) == m.Start(2) + 31 && m.Start(4) == m.Start(2) + 61
  {
    var m := Months(leap);
    assert m.Start(1) == m.Start(0) + m.Size(0);
    assert m.Start(2) == m.Start(1) + m.Size(1);
    assert m.Start(3) == m.Start(2) + m.Size(2);
    assert m.Start(4) == m.Start(3) + m.Size(3);
  }

  lemma MiddleMonths(leap: bool)
    ensures var m := Months(leap);
      m.Start(5) == m.Start(4) + 31 && m.Start(6) == m.Start(4) + 61 && m.Start(7) == m.Start(4) + 92 && m.Start(8) == m.Start(4) + 123
  {
    var m := Months(leap);
    assert m.Start(5) == m.Start(4) + m.Size(4);
    assert m.Start(6) == m.Start(5) + m.Size(5);
    assert m.Start(7) == m.Start(6) + m.Size(6);
    assert m.Start(8) == m.Start(7) + m.Size(7);
  }

  lemma LateMonths(leap: bool)
    ensures var m := Months(leap);
      m.Start(9) == m.Start(8) + 30 && m.Start(10) == m.Start(8) + 61 && m.Start(11) == m.Start(8) + 91 && m.Start(12) == m.Start(8) + 122
  {
    var m := Months(leap);
    assert m.Start(9) == m.Start(8) + m.Size(8);
    assert m.Start(10) == m.Start(9) + m.Size(9);
    assert m.Start(11) == m.Start(10) + m.Size(10);
    assert m.Start(12) == m.Start(11) + m.Size(11);
  }

  lemma SameLeap(y: nat)
    ensures Leap(y) == LeapYear(y)
  {
    LeapRules(y);
  }

  /** The searched months start where the table says. */
  lemma MonthTable(y: nat, m: nat)
    requires 1 <= m <= 13
    ensures Months(Leap(y)).Start(m - 1) == BeforeMonth(y, m)
  {
    SameLeap(y);
    EarlyMonths(Leap(y));
    MiddleMonths(Leap(y));
    LateMonths(Leap(y));
  }

  lemma MonthIsItsLength(y: nat, m: nat)
    requires 1 <= m <= 12
    ensures MonthLength(Leap(y), m - 1) == BeforeMonth(y, m + 1) - BeforeMonth(y, m)
  {
    MonthTable(y, m);
    MonthTable(y, m + 1);
    var b := Months(Leap(y));
    assert b.Start(m) == b.Start(m - 1) + b.Size(m - 1);
  }

  function Fields(y: nat, m: nat, d: nat, h: nat, mi: nat, s: nat, ms: nat): seq<nat> {
    [y, m, d, h, mi, s, ms]
  }

  lemma FieldsMillis(y: nat, m: nat, d: nat, h: nat, mi: nat, s: nat, ms: nat)
    requires ValidDate(y, m, d) && ValidTime(h, mi, s) && ms < 1000
    ensures IsDate(Fields(y, m, d, h, mi, s, ms))
    ensures MillisOf(Fields(y, m, d, h, mi, s, ms)) == UnixSeconds(y, m, d, h, mi, s) * 1000 + ms + EPOCH_MS
  {
    MonthIsItsLength(y, m);
    MonthTable(y, m);
    DaysBeforeYear(y);
    DaysAgree(y, m, d);
    var f := Fields(y, m, d, h, mi, s, ms);
    TimeOfDay(DayNumber(f), h, mi, s);
  }

  lemma DaysAgree(y: nat, m: nat, d: nat)
    requires ValidDate(y, m, d) && d <= MonthLength(Leap(y), m - 1)
    requires Months(Leap(y)).Start(m - 1) == BeforeMonth(y, m) && Years.Start(y) == DaysBefore(y)
    ensures Years.Start(y) + (Months(Leap(y)).Start(m - 1) + (d - 1)) == DaysTo(y, m, d)
  {
  }

  lemma TimeOfDay(days: int, h: nat, mi: nat, s: nat)
    ensures ((days * 24 + h) * 60 + mi) * 60 + s == days * 86_400 + h * 3600 + mi * 60 + s
  {
  }

  /** The milliseconds of an instant, from its date. */
  lemma InstantMillis(t: Instant, seconds: int, nanos: nat)
    requires t == seconds * 1_000_000_000 + nanos && nanos < 1_000_000_000
    ensures Millis(t) == seconds * 1000 + nanos / 1_000_000 + EPOCH_MS
  {
    assert t == (seconds * 1000 + nanos / 1_000_000) * 1_000_000 + nanos % 1_000_000;
    Quotient(t, seconds * 1000 + nanos / 1_000_000, nanos % 1_000_000);
  }

  lemma Quotient(t: int, q: int, r: nat)
    requires t == q * 1_000_000 + r && r < 1_000_000
    ensures t / 1_000_000 == q
  {
  }

  /** `12:34:56`, and what follows it. */
  function TimeText(h: nat, mi: nat, s: nat, rest: string): string {
    Digits(h, 2) + (":" + (Digits(mi, 2) + (":" + (Digits(s, 2) + rest))))
  }

  /** `2024-02-29T`, and what follows it. */
  function DateText(y: nat, m: nat, d: nat, rest: string): string {
    Digits(y, 4) + ("-" + (Digits(m, 2) + ("-" + (Digits(d, 2) + ("T" + rest)))))
  }

  lemma TimeWritten(f: seq<nat>)
    requires |f| == PARTS
    ensures Write(f, 3) == TimeText(f[3], f[4], f[5], "." + (Digits(f[6], 3) + "Z"))
  {
    assert Write(f, 6) == Digits(f[6], 3) + "Z";
    assert Write(f, 5) == Digits(f[5], 2) + ("." + Write(f, 6));
    assert Write(f, 4) == Digits(f[4], 2) + (":" + Write(f, 5));
    assert Write(f, 3) == Digits(f[3], 2) + (":" + Write(f, 4));
  }

  lemma DateWritten(f: seq<nat>)
    requires |f| == PARTS
    ensures Write(f, 0) == DateText(f[0], f[1], f[2], Write(f, 3))
  {
    assert Write(f, 2) == Digits(f[2], 2) + ("T" + Write(f, 3));
    assert Write(f, 1) == Digits(f[1], 2) + ("-" + Write(f, 2));
    assert Write(f, 0) == Digits(f[0], 4) + ("-" + Write(f, 1));
  }

  lemma WrittenOut(f: seq<nat>, y: nat, m: nat, d: nat, h: nat, mi: nat, s: nat, ms: nat)
    requires f == Fields(y, m, d, h, mi, s, ms)
    ensures Write(f, 0) == DateText(y, m, d, TimeText(h, mi, s, "." + (Digits(ms, 3) + "Z")))
  {
    TimeWritten(f);
    DateWritten(f);
  }

  /** The fields of an instant are its Gregorian date and time of day. */
  lemma InstantFields(t: Instant, y: nat, m: nat, d: nat, h: nat, mi: nat, s: nat, nanos: nat)
    requires ValidDate(y, m, d) && ValidTime(h, mi, s) && nanos < 1_000_000_000
    requires t == UnixSeconds(y, m, d, h, mi, s) * 1_000_000_000 + nanos
    ensures FieldsOf(Millis(t)) == Fields(y, m, d, h, mi, s, nanos / 1_000_000)
  {
    var ms := nanos / 1_000_000;
    FieldsMillis(y, m, d, h, mi, s, ms);
    InstantMillis(t, UnixSeconds(y, m, d, h, mi, s), nanos);
    MillisInverse(Fields(y, m, d, h, mi, s, ms));
  }

  lemma FmtIs(t: Instant, f: seq<nat>)
    requires f == FieldsOf(Millis(t)) && f[0] <= 9999
    ensures YearOf(t) == f[0] && FmtTs(t) == Write(f, 0)
  {
  }

  /** k's text of an instant shows exactly its Gregorian date and its time of
      day to the millisecond, and these are the milliseconds that it is read
      back as (`Timestamp.ParseFormatted`). */
  lemma TextShowsDate(t: Instant, y: nat, m: nat, d: nat, h: nat, mi: nat, s: nat, nanos: nat)
    requires y <= 9999 && ValidDate(y, m, d) && ValidTime(h, mi, s) && nanos < 1_000_000_000
    requires t == UnixSeconds(y, m, d, h, mi, s) * 1_000_000_000 + nanos
    ensures YearOf(t) == y && FmtTs(t) == DateText(y, m, d, TimeText(h, mi, s, "." + (Digits(nanos / 1_000_000, 3) + "Z")))
    ensures Millis(t) == 62_167_219_200_000 + UnixSeconds(y, m, d, h, mi, s) * 1000 + nanos / 1_000_000
  {
    var f := Fields(y, m, d, h, mi, s, nanos / 1_000_000);
    InstantFields(t, y, m, d, h, mi, s, nanos);
    FmtIs(t, f);
    WrittenOut(f, y, m, d, h, mi, s, nanos / 1_000_000);
    InstantMillis(t, UnixSeconds(y, m, d, h, mi, s), nanos);
  }

  lemma RestWritten(f: seq<nat>)
    requires |f| == PARTS
    ensures Write(f, 1) == Digits(f[1], 2) + ("-" + (Digits(f[2], 2) + ("T" + TimeText(f[3], f[4], f[5], "." + (Digits(f[6], 3) + "Z")))))
  {
    TimeWritten(f);
    assert Write(f, 2) == Digits(f[2], 2) + ("T" + Write(f, 3));
    assert Write(f, 1) == Digits(f[1], 2) + ("-" + Write(f, 2));
  }

  lemma {:induction false} WidthIsExact(y: nat)
    ensures y < Pow10(DecimalWidth(y)) && (y > 0 ==> Pow10(DecimalWidth(y) - 1) <= y)
  {
    if y >= 10 { WidthIsExact(y / 10); }
  }

  /** ... and past the year 9999 the same after a sign and all digits of the year. */
  lemma FarTextShowsDate(t: Instant, y: nat, m: nat, d: nat, h: nat, mi: nat, s: nat, nanos: nat) returns (w: nat)
    requires y > 9999 && ValidDate(y, m, d) && ValidTime(h, mi, s) && nanos < 1_000_000_000
    requires t == UnixSeconds(y, m, d, h, mi, s) * 1_000_000_000 + nanos
    ensures w > 0 && Pow10(w - 1) <= y < Pow10(w)
    ensures FmtTs(t) == "+" + (Digits(y, w) + ("-" + (Digits(m, 2) + ("-" + (Digits(d, 2) + ("T"
      + TimeText(h, mi, s, "." + (Digits(nanos / 1_000_000, 3) + "Z"))))))))
  {
    var f := Fields(y, m, d, h, mi, s, nanos / 1_000_000);
    InstantFields(t, y, m, d, h, mi, s, nanos);
    YearField(t, f);
    FarText(t);
    RestWritten(f);
    w := DecimalWidth(y);
    WidthIsExact(y);
  }

  lemma YearField(t: Instant, f: seq<nat>)
    requires f == FieldsOf(Millis(t))
    ensures YearOf(t) == f[0]
  {
  }

  /** Every instant from the year 0000 on has such a date. */
  lemma DateExists(t: Instant) returns (y: nat, m: nat, d: nat, h: nat, mi: nat, s: nat, nanos: nat)
    ensures ValidDate(y, m, d) && ValidTime(h, mi, s) && nanos < 1_000_000_000
    ensures t == UnixSeconds(y, m, d, h, mi, s) * 1_000_000_000 + nanos
  {
    var f := FieldsOf(Millis(t));
    FieldsAreDate(Millis(t));
    y, m, d, h, mi, s := f[0], f[1], f[2], f[3], f[4], f[5];
    MonthIsItsLength(y, m);
    FieldsMillis(y, m, d, h, mi, s, f[6]);
    assert f == Fields(y, m, d, h, mi, s, f[6]);
    nanos := t - UnixSeconds(y, m, d, h, mi, s) * 1_000_000_000;
  }
}
