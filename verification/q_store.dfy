/** q: how a response is classified. */
module QClassify {
  import opened Common
  import TextOrder

  datatype Outcome = Delivered | Retryable(err: string) | Permanent(err: string)

  function Decimal(n: nat): string {
    (if n < 10 then "" else Decimal(n / 10)) + [('0' as int + n % 10) as char]
  }

  /** `transport` is the error of a request that got no response. */
  function Classify(status: nat, transport: Option<string>): Outcome {
    if transport.Some? then Retryable(transport.value)
    else if 200 <= status <= 299 then Delivered
    else if status == 429 || 500 <= status <= 599 then Retryable("HTTP " + Decimal(status))
    else Permanent("HTTP " + Decimal(status))
  }

  /** The status as it is read: its digits, without a leading zero. */
  lemma {:induction false} DecimalReads(n: nat)
    ensures TextOrder.AllDigits(Decimal(n)) && TextOrder.Number(Decimal(n)) == n
    ensures n > 0 ==> Decimal(n)[0] != '0'
    decreases n
  {
    var rest := if n < 10 then "" else Decimal(n / 10);
    if n >= 10 { DecimalReads(n / 10); }
    assert Decimal(n)[..|rest|] == rest && Decimal(n)[|rest|] == ('0' as int + n % 10) as char;
  }

  /** 2xx delivers; a transport error, 429 and 5xx are worth a retry and
      everything else is not; the error names the status. */
  lemma ClassifyExactly(status: nat, transport: Option<string>)
    ensures var outcome := Classify(status, transport);
      && (outcome.Delivered? <==> transport == None && status / 100 == 2)
      && (outcome.Retryable? <==> transport.Some? || status == 429 || status / 100 == 5)
      && (!outcome.Delivered? ==> outcome.err == if transport.Some? then transport.value else "HTTP " + Decimal(status))
  {
  }
}

/** q's two tables and the SQL statements on them. Every statement runs under
    one mutex and is a single atomic update; `fault` says whether SQLite
    reports an error instead, in which case nothing changes. */
module QStore {
  import opened Common
  import opened Selection

  datatype Status = Pending | InFlight | Delivered | DeadLetter

  datatype Delivery = Delivery(
    key: Option<string>, destination: string, payload: string,
    status: Status, attempts: nat, maxAttempts: nat, nextRetryAt: int,
    lastError: Option<string>, createdAt: int, updatedAt: int)
  {
    function Claimed(now: int): Delivery {
      this.(status := InFlight, updatedAt := now)
    }

    function Acknowledged(now: int): Delivery {
      this.(status := Status.Delivered, attempts := attempts + 1, lastError := None, updatedAt := now)
    }

    function Rescheduled(next: int, err: string, now: int): Delivery {
      this.(status := Pending, attempts := attempts + 1, nextRetryAt := next, lastError := Some(err), updatedAt := now)
    }

    function Buried(err: string, now: int): Delivery {
      this.(status := DeadLetter, lastError := Some(err), updatedAt := now)
    }

    function Replayed(now: int): Delivery {
      this.(status := Pending, attempts := 0, nextRetryAt := now, lastError := None, updatedAt := now)
    }

    function Reset(now: int): Delivery {
      this.(status := Pending, nextRetryAt := now, updatedAt := now)
    }

    predicate Stale(now: int, staleMs: int) {
      status == InFlight && updatedAt <= now - staleMs
    }

    predicate Terminal() {
      status == Status.Delivered || status == DeadLetter
    }

    /** The columns no statement writes after the insert. */
    predicate SameSubmission(other: Delivery) {
      && key == other.key && destination == other.destination && payload == other.payload
      && maxAttempts == other.maxAttempts && createdAt == other.createdAt
    }
  }

  datatype NewDelivery = NewDelivery(id: Id, key: Option<string>, destination: string, payload: string, maxAttempts: nat)
  datatype DlqEntry = DlqEntry(deliveryId: Id, destination: string, payload: string, attempts: nat, lastError: string, deadLetteredAt: int)
  datatype InsertResult = Inserted | Conflict(existing: Id) | SqliteError
  datatype Statistics = Statistics(submitted: nat, delivered: nat, deadLettered: nat, pending: nat, inFlight: nat, deadLetters: nat)

  type Rows = map<Id, Delivery>

  // ------------------------------------------------- the statements, as functions

  ghost function Keys(rows: Rows): set<Option<string>> {
    set id | id in rows :: rows[id].key
  }

  predicate KeyTaken(rows: Rows, key: Option<string>) {
    key.Some? && exists id | id in rows :: rows[id].key == key
  }

  /** The UNIQUE constraint: a non-NULL key occurs in at most one row. */
  ghost predicate UniqueKeys(rows: Rows) {
    forall i, j | i in rows && j in rows && rows[i].key.Some? && rows[i].key == rows[j].key :: i == j
  }

  ghost function KeyOwner(rows: Rows, key: Option<string>): (id: Id)
    requires KeyTaken(rows, key)
    ensures id in rows && rows[id].key == key
  {
    var id :| id in rows && rows[id].key == key; id
  }

  function FreshRow(d: NewDelivery, now: int): Delivery {
    Delivery(d.key, d.destination, d.payload, Pending, 0, d.maxAttempts, now, None, now, now)
  }

  ghost function InsertAnswer(rows: Rows, d: NewDelivery): InsertResult {
    if KeyTaken(rows, d.key) then Conflict(KeyOwner(rows, d.key))
    else if d.id in rows then SqliteError
    else Inserted
  }

  ghost function AfterInsert(rows: Rows, d: NewDelivery, now: int): Rows {
    if InsertAnswer(rows, d) == Inserted then rows[d.id := FreshRow(d, now)] else rows
  }

  function DueTimes(rows: Rows, now: int): map<Id, int> {
    map id | id in rows && rows[id].status == Pending && rows[id].nextRetryAt <= now :: rows[id].nextRetryAt
  }

  /** What the query leaves out, on the columns. */
  lemma LeftOut(rows: Rows, now: int, limit: nat, answer: seq<Id>)
    requires Oldest(DueTimes(rows, now), limit, answer)
    ensures |answer| <= limit && forall i | 0 <= i < |answer| :: answer[i] in rows
    ensures forall id | id in rows && rows[id].status == Pending && rows[id].nextRetryAt <= now && id !in answer ::
      |answer| == limit && forall i | 0 <= i < |answer| :: rows[answer[i]].nextRetryAt <= rows[id].nextRetryAt
  {
    var due := DueTimes(rows, now);
    assert forall i | 0 <= i < |answer| :: answer[i] in due;
    forall id | id in rows && rows[id].status == Pending && rows[id].nextRetryAt <= now && id !in answer
      ensures |answer| == limit && forall i | 0 <= i < |answer| :: rows[answer[i]].nextRetryAt <= rows[id].nextRetryAt
    {
      LeftOutMeansFull(due, limit, answer, id);
    }
  }

  predicate Claimable(rows: Rows, id: Id) {
    id in rows && rows[id].status == Pending
  }

  function AfterClaim(rows: Rows, id: Id, now: int): Rows {
    if Claimable(rows, id) then rows[id := rows[id].Claimed(now)] else rows
  }

  function AfterDelivered(rows: Rows, id: Id, now: int): Rows {
    if id in rows then rows[id := rows[id].Acknowledged(now)] else rows
  }

  function AfterRetry(rows: Rows, id: Id, next: int, err: string, now: int): Rows {
    if id in rows then rows[id := rows[id].Rescheduled(next, err, now)] else rows
  }

  function AfterBurial(rows: Rows, id: Id, err: string, now: int): Rows {
    if id in rows then rows[id := rows[id].Buried(err, now)] else rows
  }

  function EntryFor(row: Delivery, id: Id, err: string, now: int): DlqEntry {
    DlqEntry(id, row.destination, row.payload, row.attempts, err, now)
  }

  function DlqAfterBurial(rows: Rows, dlq: seq<DlqEntry>, id: Id, err: string, now: int): seq<DlqEntry> {
    if id in rows then dlq + [EntryFor(rows[id], id, err, now)] else dlq
  }

  predicate Replayable(rows: Rows, id: Id) {
    id in rows && rows[id].status == DeadLetter
  }

  function AfterReplay(rows: Rows, id: Id, now: int): Rows {
    if Replayable(rows, id) then rows[id := rows[id].Replayed(now)] else rows
  }

  function StaleIds(rows: Rows, now: int, staleMs: int): set<Id> {
    set id | id in rows && rows[id].Stale(now, staleMs)
  }

  function AfterReset(rows: Rows, reset: set<Id>, now: int): Rows {
    map id | id in rows :: if id in reset then rows[id].Reset(now) else rows[id]
  }

  function WithStatus(rows: Rows, status: Status): set<Id> {
    set id | id in rows && rows[id].status == status
  }

  /** The queue counters partition the table. */
  lemma CountersAddUp(rows: Rows)
    ensures |rows| == |WithStatus(rows, Pending)| + |WithStatus(rows, InFlight)|
                    + |WithStatus(rows, Status.Delivered)| + |WithStatus(rows, DeadLetter)|
  {
    var p, f := WithStatus(rows, Pending), WithStatus(rows, InFlight);
    var d, l := WithStatus(rows, Status.Delivered), WithStatus(rows, DeadLetter);
    assert rows.Keys == p + f + d + l;
    assert |p + f| == |p| + |f|;
    assert |p + f + d| == |p + f| + |d|;
  }

  // ------------------------------------------------------------------ the handle

  class Db {
    var rows: Rows
    var dlq: seq<DlqEntry>

    ghost predicate Valid()
      reads this
    {
      UniqueKeys(rows)
    }

    constructor ()
      ensures Valid() && rows == map[] && dlq == []
    {
      rows, dlq := map[], [];
    }

    method Insert(d: NewDelivery, now: int, fault: bool) returns (r: InsertResult)
      requires Valid()
      modifies this`rows
      ensures Valid()
      ensures fault ==> r == SqliteError && rows == old(rows)
      ensures !fault ==> r == InsertAnswer(old(rows), d) && rows == AfterInsert(old(rows), d, now)
      ensures r == Inserted ==> d.id !in old(rows)
      ensures r == Inserted ==>
        rows == old(rows)[d.id := Delivery(d.key, d.destination, d.payload, Pending, 0, d.maxAttempts, now, None, now, now)]
      ensures r.Conflict? ==> rows == old(rows) && d.key.Some? && r.existing in rows && rows[r.existing].key == d.key
      ensures !fault && r == SqliteError ==> rows == old(rows) && d.id in rows && (d.key.Some? ==> d.key !in Keys(rows))
    {
      if fault {
        return SqliteError;
      }
      if !KeyTaken(rows, d.key) && d.id !in rows {
        rows := rows[d.id := FreshRow(d, now)];
        return Inserted;
      }
      // Constraint violation: look the key up under the same lock.
      if KeyTaken(rows, d.key) {
        var existing :| existing in rows && rows[existing].key == d.key;
        return Conflict(existing);
      }
      return SqliteError;
    }

    method Find(id: Id) returns (r: Option<Delivery>)
      ensures r == if id in rows then Some(rows[id]) else None
    {
      r := if id in rows then Some(rows[id]) else None;
    }

    /** `answer` is the order in which SQLite yields the selected rows; `None`
        when it fails. */
    method ListDue(now: int, limit: nat, answer: seq<Id>, fault: bool) returns (r: Option<seq<(Id, Delivery)>>)
      requires Oldest(DueTimes(rows, now), limit, answer)
      ensures r.None? <==> fault
      ensures r.Some? ==>
        && |r.value| == |answer|
        && (forall i | 0 <= i < |answer| :: r.value[i].0 == answer[i] && answer[i] in rows && r.value[i].1 == rows[answer[i]])
        && (forall i | 0 <= i < |answer| :: r.value[i].1.status == Pending && r.value[i].1.nextRetryAt <= now)
        && (forall i, j | 0 <= i < j < |answer| :: r.value[i].0 != r.value[j].0 && r.value[i].1.nextRetryAt <= r.value[j].1.nextRetryAt)
      ensures |answer| <= limit
      ensures forall id | id in rows && rows[id].status == Pending && rows[id].nextRetryAt <= now && id !in answer ::
        |answer| == limit && forall i | 0 <= i < |answer| :: rows[answer[i]].nextRetryAt <= rows[id].nextRetryAt
    {
      LeftOut(rows, now, limit, answer);
      if fault {
        return None;
      }
      var out := [];
      for i := 0 to |answer|
        invariant |out| == i
        invariant forall j | 0 <= j < i :: out[j] == (answer[j], rows[answer[j]])
      {
        out := out + [(answer[i], rows[answer[i]])];
      }
      r := Some(out);
    }

    /** `None` when SQLite fails. */
    method Claim(id: Id, now: int, fault: bool) returns (won: Option<bool>)
      requires Valid()
      modifies this`rows
      ensures Valid()
      ensures fault ==> won == None && rows == old(rows)
      ensures !fault ==> won == Some(Claimable(old(rows), id)) && rows == AfterClaim(old(rows), id, now)
      ensures !fault ==> (won == Some(true) <==> id in old(rows) && old(rows)[id].status == Pending)
      ensures rows == if won == Some(true) then old(rows)[id := old(rows)[id].(status := InFlight, updatedAt := now)] else old(rows)
    {
      if fault {
        return None;
      }
      if id in rows && rows[id].status == Pending {
        rows := rows[id := rows[id].(status := InFlight, updatedAt := now)];
        return Some(true);
      }
      return Some(false);
    }

    method MarkDelivered(id: Id, now: int, fault: bool)
      requires Valid()
      modifies this`rows
      ensures Valid()
      ensures rows == if fault then old(rows) else AfterDelivered(old(rows), id, now)
      ensures !fault && id in old(rows) ==>
        var r := old(rows)[id];
        rows[id] == r.(status := Status.Delivered, attempts := r.attempts + 1, lastError := None, updatedAt := now)
    {
      if !fault && id in rows {
        var r := rows[id];
        rows := rows[id := r.(status := Status.Delivered, attempts := r.attempts + 1, lastError := None, updatedAt := now)];
      }
    }

    method ScheduleRetry(id: Id, next: int, err: string, now: int, fault: bool)
      requires Valid()
      modifies this`rows
      ensures Valid()
      ensures rows == if fault then old(rows) else AfterRetry(old(rows), id, next, err, now)
      ensures !fault && id in old(rows) ==>
        var r := old(rows)[id];
        rows[id] == r.(status := Pending, attempts := r.attempts + 1, nextRetryAt := next, lastError := Some(err), updatedAt := now)
    {
      if !fault && id in rows {
        var r := rows[id];
        rows := rows[id := r.(status := Pending, attempts := r.attempts + 1, nextRetryAt := next,
                              lastError := Some(err), updatedAt := now)];
      }
    }

    /** One transaction: the row is buried and its DLQ entry written, or neither. */
    method DeadLetter(id: Id, err: string, now: int, fault: bool) returns (entry: Option<DlqEntry>)
      requires Valid()
      modifies this
      ensures Valid()
      ensures fault || id !in old(rows) ==> entry == None && rows == old(rows) && dlq == old(dlq)
      ensures !fault && id in old(rows) ==>
        && rows == AfterBurial(old(rows), id, err, now)
        && entry == Some(EntryFor(old(rows)[id], id, err, now))
        && dlq == old(dlq) + [entry.value]
      ensures !fault && id in old(rows) ==>
        var r := old(rows)[id];
        && rows == old(rows)[id := r.(status := Status.DeadLetter, lastError := Some(err), updatedAt := now)]
        && dlq == old(dlq) + [DlqEntry(id, r.destination, r.payload, r.attempts, err, now)]
    {
      if fault || id !in rows {
        return None;
      }
      var destination, payload, attempts := rows[id].destination, rows[id].payload, rows[id].attempts;
      rows := rows[id := rows[id].(status := Status.DeadLetter, lastError := Some(err), updatedAt := now)];
      var e := DlqEntry(id, destination, payload, attempts, err, now);
      dlq := dlq + [e];
      return Some(e);
    }

    /** `None` when SQLite fails, here and below. */
    method ReplayDeadLetter(id: Id, now: int, fault: bool) returns (requeued: Option<bool>)
      requires Valid()
      modifies this`rows
      ensures Valid()
      ensures fault ==> requeued == None && rows == old(rows)
      ensures !fault ==> requeued == Some(Replayable(old(rows), id)) && rows == AfterReplay(old(rows), id, now)
      ensures !fault ==> (requeued == Some(true) <==> id in old(rows) && old(rows)[id].status == Status.DeadLetter)
      ensures requeued == Some(true) ==>
        rows == old(rows)[id := old(rows)[id].(status := Pending, attempts := 0, nextRetryAt := now, lastError := None, updatedAt := now)]
    {
      if fault {
        return None;
      }
      if id in rows && rows[id].status == Status.DeadLetter {
        rows := rows[id := rows[id].(status := Pending, attempts := 0, nextRetryAt := now, lastError := None, updatedAt := now)];
        return Some(true);
      }
      return Some(false);
    }

    method ResetStaleInFlight(now: int, staleMs: int, fault: bool) returns (n: Option<nat>)
      requires Valid()
      modifies this`rows
      ensures Valid()
      ensures fault ==> n == None && rows == old(rows)
      ensures !fault ==> n == Some(|StaleIds(old(rows), now, staleMs)|)
      ensures !fault ==> rows == AfterReset(old(rows), StaleIds(old(rows), now, staleMs), now)
      ensures !fault ==> n == Some(|set id | id in old(rows) && old(rows)[id].status == InFlight && old(rows)[id].updatedAt <= now - staleMs|)
      ensures !fault ==> rows.Keys == old(rows).Keys && forall id | id in rows ::
        rows[id] == if old(rows)[id].status != InFlight || old(rows)[id].updatedAt > now - staleMs then old(rows)[id]
                    else old(rows)[id].(status := Pending, nextRetryAt := now, updatedAt := now)
    {
      if fault {
        return None;
      }
      var stale := set id | id in rows && rows[id].status == InFlight && rows[id].updatedAt <= now - staleMs;
      assert stale == StaleIds(rows, now, staleMs);
      rows := map id | id in rows :: if id in stale then rows[id].Reset(now) else rows[id];
      n := Some(|stale|);
    }

    method Stats(fault: bool) returns (r: Option<Statistics>)
      ensures r.None? <==> fault
      ensures r.Some? ==>
        var s := r.value;
        && s.submitted == |rows| == s.pending + s.inFlight + s.delivered + s.deadLettered
        && s.deadLettered == |set id | id in rows && rows[id].status == Status.DeadLetter|
        && s.delivered == |set id | id in rows && rows[id].status == Status.Delivered|
        && s.inFlight == |set id | id in rows && rows[id].status == InFlight| && s.deadLetters == |dlq|
        && s.pending == |set id | id in rows && rows[id].status == Pending|
    {
      if fault {
        return None;
      }
      CountersAddUp(rows);
      var delivered, buried := set id | id in rows && rows[id].status == Status.Delivered, set id | id in rows && rows[id].status == Status.DeadLetter;
      var pending, inFlight := set id | id in rows && rows[id].status == Pending, set id | id in rows && rows[id].status == InFlight;
      assert delivered == WithStatus(rows, Status.Delivered) && buried == WithStatus(rows, Status.DeadLetter);
      assert pending == WithStatus(rows, Pending) && inFlight == WithStatus(rows, InFlight);
      r := Some(Statistics(|rows|, |delivered|, |buried|, |pending|, |inFlight|, |dlq|));
    }
  }
}
