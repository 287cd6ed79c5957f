/** k's job table as it is stored, with text timestamps, its statements and its
    worker; each is tied to the statement of KProtocol on milliseconds. */
module KDb {
  import opened Common
  import opened Selection
  import opened KProtocol
  import opened TextOrder
  import opened TextSelection
  import opened Timestamp
  import Backoff

  datatype Row = Row(
    destination: string, payload: string, status: Status, attempts: int, maxAttempts: int,
    nextAttemptAt: string, lastError: Option<string>, createdAt: string, updatedAt: string)
  {
    function MarkedDelivered(now: string): Row {
      this.(status := Delivered, lastError := None, updatedAt := now)
    }

    function Rescheduled(due: string, err: string, now: string): Row {
      this.(status := Pending, nextAttemptAt := due, lastError := Some(err), updatedAt := now)
    }

    function MarkedDead(err: string, now: string): Row {
      this.(status := Dead, lastError := Some(err), updatedAt := now)
    }
  }

  type Rows = map<Id, Row>

  predicate RowOk(r: Row) {
    Stored(r.nextAttemptAt) && Stored(r.createdAt) && Stored(r.updatedAt)
  }

  ghost predicate Readable(rows: Rows) {
    forall id | id in rows :: RowOk(rows[id])
  }

  /** `row_to_job`. */
  function RowToJob(r: Row): Option<Job> {
    match (ParseTs(r.nextAttemptAt), ParseTs(r.createdAt), ParseTs(r.updatedAt))
    case (Some(due), Some(created), Some(updated)) =>
      Some(Job(r.destination, r.payload, r.status, r.attempts, r.maxAttempts, due, r.lastError, created, updated))
    case _ => None
  }

  function AbsJob(r: Row): Job {
    Job(r.destination, r.payload, r.status, r.attempts, r.maxAttempts, MsOf(r.nextAttemptAt), r.lastError, MsOf(r.createdAt), MsOf(r.updatedAt))
  }

  function Abs(rows: Rows): Jobs {
    map id | id in rows :: AbsJob(rows[id])
  }

  /** Writing one row. */
  lemma AbsUpdate(rows: Rows, id: Id, r: Row)
    ensures Abs(rows[id := r]) == Abs(rows)[id := AbsJob(r)]
    ensures Readable(rows) && RowOk(r) ==> Readable(rows[id := r])
  {
  }

  // ----------------------------------------------------- the due query, on text

  function DueTexts(rows: Rows, now: string): map<Id, string> {
    map id | id in rows && rows[id].status == Pending && Compare(rows[id].nextAttemptAt, now) <= 0 :: rows[id].nextAttemptAt
  }

  lemma SameDue(rows: Rows, now: string)
    requires Readable(rows) && Stored(now)
    ensures var texts, times := DueTexts(rows, now), DueTimes(Abs(rows), MsOf(now));
      && texts.Keys == times.Keys
      && forall id | id in texts :: RowOk(rows[id]) && texts[id] == rows[id].nextAttemptAt && times[id] == MsOf(texts[id])
  {
    forall id | id in rows ensures RowOk(rows[id]) && (Compare(rows[id].nextAttemptAt, now) <= 0 <==> MsOf(rows[id].nextAttemptAt) <= MsOf(now)) {
      assert RowOk(rows[id]);
      StoredOrder(rows[id].nextAttemptAt, now);
    }
  }

  lemma SameOrder(due: map<Id, string>, times: map<Id, int>, i: Id, j: Id)
    requires i in due && j in due && i in times && j in times
    requires Stored(due[i]) && Stored(due[j]) && times[i] == MsOf(due[i]) && times[j] == MsOf(due[j])
    ensures Compare(due[i], due[j]) <= 0 <==> times[i] <= times[j]
  {
    StoredOrder(due[i], due[j]);
  }

  /** Sorting the stored text answers the query chronologically, and only so. */
  lemma TextQueryIsChronological(rows: Rows, now: string, limit: nat, batch: seq<Id>)
    requires Readable(rows) && Stored(now)
    ensures FirstByText(DueTexts(rows, now), limit, batch) <==> Oldest(DueTimes(Abs(rows), MsOf(now)), limit, batch)
  {
    SameDue(rows, now);
    var texts, times := DueTexts(rows, now), DueTimes(Abs(rows), MsOf(now));
    assert |texts| == |texts.Keys| && |times| == |times.Keys|;
    forall i, j | i in texts && j in texts ensures Compare(texts[i], texts[j]) <= 0 <==> times[i] <= times[j] {
      SameOrder(texts, times, i, j);
    }
    SameAnswers(texts, times, limit, batch);
  }

  // ----------------------------------------------------------------- a claim, on text

  /** What the UPDATE of a claim does to a row. */
  function Flipped(r: Row, now: string): Row {
    r.(status := InFlight, attempts := r.attempts + 1, updatedAt := now)
  }

  function FlippedAll(rows: Rows, batch: seq<Id>, now: string): Rows {
    map id | id in rows :: if id in batch then Flipped(rows[id], now) else rows[id]
  }

  /** What a claim does to the columns: each row it takes counts one attempt. */
  lemma FlippedRows(rows: Rows, batch: seq<Id>, now: string)
    ensures var rows' := FlippedAll(rows, batch, now);
      && rows'.Keys == rows.Keys
      && forall id | id in rows ::
        rows'[id] == if id in batch then rows[id].(status := InFlight, attempts := rows[id].attempts + 1, updatedAt := now) else rows[id]
  {
  }

  lemma FlippedAbs(rows: Rows, batch: seq<Id>, now: string)
    requires Stored(now)
    ensures Readable(rows) ==> Readable(FlippedAll(rows, batch, now))
    ensures Abs(FlippedAll(rows, batch, now)) == AfterClaim(Abs(rows), batch, MsOf(now))
  {
    forall id | id in rows ensures FlippedWell(rows[id], now) { FlippedJob(rows[id], now); }
    FlippedReadable(rows, batch, now);
    FlippedTimes(rows, batch, now);
  }

  lemma FlippedTimes(rows: Rows, batch: seq<Id>, now: string)
    requires forall id | id in rows :: FlippedWell(rows[id], now)
    ensures Abs(FlippedAll(rows, batch, now)) == AfterClaim(Abs(rows), batch, MsOf(now))
  {
  }

  lemma FlippedReadable(rows: Rows, batch: seq<Id>, now: string)
    requires forall id | id in rows :: FlippedWell(rows[id], now)
    ensures Readable(rows) ==> Readable(FlippedAll(rows, batch, now))
  {
  }

  ghost predicate FlippedWell(r: Row, now: string) {
    && AbsJob(Flipped(r, now)) == AbsJob(r).Claimed(MsOf(now))
    && RowToJob(Flipped(r, now)) == (if Legible(r) then Some(AbsJob(r).Claimed(MsOf(now))) else None)
    && (RowOk(r) ==> RowOk(Flipped(r, now)))
  }

  lemma FlippedJob(r: Row, now: string)
    requires Stored(now)
    ensures FlippedWell(r, now)
  {
  }

  lemma FlippedNone(rows: Rows, now: string)
    ensures FlippedAll(rows, [], now) == rows
  {
  }

  /** What the claim returns: the rows as they are after it. */
  lemma ClaimResult(rows: Rows, batch: seq<Id>, now: string) returns (goal: seq<Held>)
    requires Stored(now) && forall i | 0 <= i < |batch| :: batch[i] in rows
    ensures forall i | 0 <= i < |batch| :: batch[i] in Abs(FlippedAll(rows, batch, now))
    ensures goal == Copies(Abs(FlippedAll(rows, batch, now)), batch)
    ensures forall i | 0 <= i < |batch| :: goal[i] == Held(batch[i], AbsJob(rows[batch[i]]).Claimed(MsOf(now)))
  {
    goal := Copies(Abs(FlippedAll(rows, batch, now)), batch);
    forall i | 0 <= i < |batch| ensures goal[i] == Held(batch[i], AbsJob(rows[batch[i]]).Claimed(MsOf(now))) {
      FlippedJob(rows[batch[i]], now);
    }
  }

  lemma OneLonger<T>(s: seq<T>, i: nat)
    requires i < |s|
    ensures s[..i + 1] == s[..i] + [s[i]]
  {
  }

  lemma FlipNext(before: Rows, batch: seq<Id>, i: nat, now: string, rows: Rows, r: Row)
    requires i < |batch| && batch[i] in before && batch[i] !in batch[..i]
    requires rows == FlippedAll(before, batch[..i], now) && r == Flipped(rows[batch[i]], now)
    ensures rows[batch[i] := r] == FlippedAll(before, batch[..i + 1], now) && r == Flipped(before[batch[i]], now)
  {
    assert batch[..i + 1] == batch[..i] + [batch[i]];
  }

  /** What the text query selects and what it leaves out, on the columns. */
  ghost predicate Selected(rows: Rows, now: string, limit: nat, answer: seq<Id>) {
    && |answer| <= limit
    && (forall i | 0 <= i < |answer| :: answer[i] in rows && rows[answer[i]].status == Pending && Compare(rows[answer[i]].nextAttemptAt, now) <= 0)
    && (forall i, j | 0 <= i < j < |answer| ::
          answer[i] != answer[j] && Compare(rows[answer[i]].nextAttemptAt, rows[answer[j]].nextAttemptAt) <= 0)
    && (forall id | id in rows && rows[id].status == Pending && Compare(rows[id].nextAttemptAt, now) <= 0 && id !in answer ::
          LeftOut(rows, limit, answer, id))
  }

  predicate LeftOut(rows: Rows, limit: nat, answer: seq<Id>, id: Id)
    requires id in rows && forall i | 0 <= i < |answer| :: answer[i] in rows
  {
    |answer| == limit && forall i | 0 <= i < |answer| :: Compare(rows[answer[i]].nextAttemptAt, rows[id].nextAttemptAt) <= 0
  }

  lemma AnswerSelects(rows: Rows, now: string, limit: nat, answer: seq<Id>)
    requires FirstByText(DueTexts(rows, now), limit, answer)
    ensures Selected(rows, now, limit, answer)
  {
    var due := DueTexts(rows, now);
    assert forall i | 0 <= i < |answer| :: answer[i] in due;
    forall id | id in rows && rows[id].status == Pending && Compare(rows[id].nextAttemptAt, now) <= 0 && id !in answer
      ensures LeftOut(rows, limit, answer, id)
    {
      TextSelection.LeftOutMeansFull(due, limit, answer, id);
    }
  }

  lemma DueFacts(rows: Rows, now: string, limit: nat, batch: seq<Id>)
    requires FirstByText(DueTexts(rows, now), limit, batch)
    ensures forall i | 0 <= i < |batch| :: batch[i] in rows && batch[i] !in batch[..i]
  {
    assert forall i | 0 <= i < |batch| :: batch[i] in DueTexts(rows, now);
  }

  /** What `row_to_job` needs of a row whose `updated_at` was just written. */
  predicate Legible(r: Row) {
    Stored(r.nextAttemptAt) && Stored(r.createdAt)
  }

  ghost function LegibleIds(rows: Rows): set<Id> {
    set id | id in rows && Legible(rows[id])
  }

  ghost predicate AllIn(ids: set<Id>, batch: seq<Id>) {
    forall i | 0 <= i < |batch| :: batch[i] in ids
  }

  ghost predicate AllLegible(rows: Rows, batch: seq<Id>) {
    AllIn(LegibleIds(rows), batch)
  }

  lemma AllInNext(ids: set<Id>, batch: seq<Id>, i: nat)
    requires i < |batch| && AllIn(ids, batch[..i])
    ensures if batch[i] in ids then AllIn(ids, batch[..i + 1]) else !AllIn(ids, batch)
  {
  }

  lemma LegibleNext(rows: Rows, batch: seq<Id>, i: nat)
    requires i < |batch| && batch[i] in rows && AllLegible(rows, batch[..i])
    ensures if Legible(rows[batch[i]]) then AllLegible(rows, batch[..i + 1]) else !AllLegible(rows, batch)
  {
    AllInNext(LegibleIds(rows), batch, i);
  }

  /** One UPDATE ... RETURNING, and its row read by `row_to_job`. */
  method FlipOne(ghost before: Rows, ghost answer: seq<Id>, ghost i: nat, id: Id, now: string, rows: Rows) returns (rows': Rows, job: Option<Job>)
    requires Stored(now) && i < |answer| && answer[i] == id && id in before && id !in answer[..i]
    requires rows == FlippedAll(before, answer[..i], now)
    ensures rows' == FlippedAll(before, answer[..i + 1], now)
    ensures job == if Legible(before[id]) then Some(AbsJob(before[id]).Claimed(MsOf(now))) else None
  {
    var updated := Flipped(rows[id], now);
    FlipNext(before, answer, i, now, rows, updated);
    FlippedJob(before[id], now);
    rows' := rows[id := updated];
    job := RowToJob(updated);
  }

  /** The loop of the transaction: one UPDATE ... RETURNING for each id, ended
      by the first row that cannot be read back. */
  method FlipEach(before: Rows, answer: seq<Id>, now: string) returns (rows: Rows, out: Option<seq<Held>>)
    requires Stored(now)
    requires forall i | 0 <= i < |answer| :: answer[i] in before && answer[i] !in answer[..i]
    ensures out.Some? <==> AllLegible(before, answer)
    ensures out.Some? ==> rows == FlippedAll(before, answer, now)
    ensures out.Some? ==> (forall i | 0 <= i < |answer| :: answer[i] in Abs(rows)) && out.value == Copies(Abs(rows), answer)
  {
    FlippedNone(before, now);
    ghost var goal := ClaimResult(before, answer, now);
    rows := before;
    var claimed := [];
    for i := 0 to |answer|
      invariant rows == FlippedAll(before, answer[..i], now) && claimed == goal[..i]
      invariant AllLegible(before, answer[..i])
    {
      var id := answer[i];
      var job;
      rows, job := FlipOne(before, answer, i, id, now, rows);
      LegibleNext(before, answer, i);
      if job == None {
        return rows, None;
      }
      claimed := claimed + [Held(id, job.value)];
      OneLonger(goal, i);
    }
    assert answer[..|answer|] == answer && goal[..|answer|] == goal;
    out := Some(claimed);
  }

  /** A pending job whose due time is past the year 9999 sorts first at all
      times, and no claim that could return anything gets past it. */
  lemma FarDueJams(rows: Rows, now: string, limit: nat, answer: seq<Id>, id: Id)
    requires Stored(now) && limit >= 1 && FirstByText(DueTexts(rows, now), limit, answer)
    requires id in rows && rows[id].status == Pending && Far(rows[id].nextAttemptAt)
    ensures !AllLegible(rows, answer)
  {
    var due := DueTexts(rows, now);
    FarFirst(rows[id].nextAttemptAt, now);
    assert id in due && due.Keys != {};
    var first := answer[0];
    assert first in due && Compare(due[first], due[id]) <= 0 by {
      CompareEqual(due[id], due[id]);
    }
    if Stored(due[first]) { FarFirst(due[id], due[first]); }
  }

  // ---------------------------------------------------------------- the statements

  class Db {
    var jobs: Rows

    ghost predicate Valid()
      reads this
    {
      Readable(jobs)
    }

    constructor ()
      ensures Valid() && jobs == map[]
    {
      jobs := map[];
    }

    method InsertJob(id: Id, destination: string, payload: string, maxAttempts: int, now: string, fault: bool) returns (ok: bool)
      requires Stored(now)
      modifies this
      ensures (old(Valid()) ==> Valid()) && ok == (!fault && id !in old(jobs))
      ensures Abs(jobs) == if ok then Abs(old(jobs))[id := FreshJob(destination, payload, maxAttempts, MsOf(now))] else Abs(old(jobs))
      ensures jobs == if ok then old(jobs)[id := Row(destination, payload, Pending, 0, maxAttempts, now, None, now, now)] else old(jobs)
    {
      ok := !fault && id !in jobs;
      if ok {
        var r := Row(destination, payload, Pending, 0, maxAttempts, now, None, now, now);
        AbsUpdate(jobs, id, r);
        jobs := jobs[id := r];
      }
    }

    /** One transaction, rolled back if a statement fails or a row cannot be
        read. `answer` is the order in which SQLite yields the selected ids. */
    method ClaimDueJobs(limit: nat, now: string, answer: seq<Id>, fault: bool) returns (out: Option<seq<Held>>)
      requires Stored(now)
      requires FirstByText(DueTexts(jobs, now), limit, answer)
      modifies this
      ensures out.Some? <==> !fault && AllLegible(old(jobs), answer)
      ensures out == None ==> jobs == old(jobs)
      ensures out.Some? ==> jobs == FlippedAll(old(jobs), answer, now) && Abs(jobs) == AfterClaim(Abs(old(jobs)), answer, MsOf(now))
      ensures out.Some? ==> (forall i | 0 <= i < |answer| :: answer[i] in Abs(jobs)) && out.value == Copies(Abs(jobs), answer)
      ensures Selected(old(jobs), now, limit, answer)
      ensures old(Valid()) ==> Valid() && out.Some? == !fault && Oldest(DueTimes(Abs(old(jobs)), MsOf(now)), limit, answer)
    {
      DueFacts(jobs, now, limit, answer);
      AnswerSelects(jobs, now, limit, answer);
      ReadableClaim(jobs, now, limit, answer);
      if fault {
        return None;
      }
      var rows;
      rows, out := FlipEach(jobs, answer, now);
      if out.Some? {
        FlippedAbs(jobs, answer, now);
        jobs := rows;
      }
    }

    method MarkDelivered(id: Id, now: string, fault: bool)
      requires Stored(now)
      modifies this
      ensures old(Valid()) ==> Valid()
      ensures Abs(jobs) == if fault then Abs(old(jobs)) else AfterDelivered(Abs(old(jobs)), id, MsOf(now))
      ensures jobs == if !fault && id in old(jobs) then old(jobs)[id := old(jobs)[id].(status := Delivered, lastError := None, updatedAt := now)] else old(jobs)
    {
      if !fault && id in jobs {
        var r := jobs[id].MarkedDelivered(now);
        AbsUpdate(jobs, id, r);
        jobs := jobs[id := r];
      }
    }

    /** `due` may be text of any year. */
    method RescheduleJob(id: Id, due: string, err: string, now: string, fault: bool)
      requires Stored(now)
      modifies this
      ensures old(Valid()) && Stored(due) ==> Valid()
      ensures Abs(jobs) == if fault then Abs(old(jobs)) else AfterReschedule(Abs(old(jobs)), id, MsOf(due), err, MsOf(now))
      ensures jobs == if !fault && id in old(jobs)
                      then old(jobs)[id := old(jobs)[id].(status := Pending, nextAttemptAt := due, lastError := Some(err), updatedAt := now)]
                      else old(jobs)
    {
      if !fault && id in jobs {
        var r := jobs[id].Rescheduled(due, err, now);
        AbsUpdate(jobs, id, r);
        jobs := jobs[id := r];
      }
    }

    method MarkDead(id: Id, err: string, now: string, fault: bool)
      requires Stored(now)
      modifies this
      ensures old(Valid()) ==> Valid()
      ensures Abs(jobs) == if fault then Abs(old(jobs)) else AfterDeath(Abs(old(jobs)), id, err, MsOf(now))
      ensures jobs == if !fault && id in old(jobs) then old(jobs)[id := old(jobs)[id].(status := Dead, lastError := Some(err), updatedAt := now)] else old(jobs)
    {
      if !fault && id in jobs {
        var r := jobs[id].MarkedDead(err, now);
        AbsUpdate(jobs, id, r);
        jobs := jobs[id := r];
      }
    }

    /** `None` when SQLite fails. */
    method RequeueDead(id: Id, now: string, fault: bool) returns (found: Option<bool>)
      requires Stored(now)
      modifies this
      ensures old(Valid()) ==> Valid()
      ensures fault ==> found == None && jobs == old(jobs)
      ensures !fault ==> (found == Some(true) <==> id in old(jobs) && old(jobs)[id].status == Dead)
      ensures found == Some(true) ==> jobs == old(jobs)[id := old(jobs)[id].(
        status := Pending, attempts := 0, nextAttemptAt := now, lastError := None, updatedAt := now)]
      ensures !fault ==> found == Some(Requeueable(Abs(old(jobs)), id)) && Abs(jobs) == AfterRequeue(Abs(old(jobs)), id, MsOf(now))
    {
      if fault {
        return None;
      }
      if id in jobs && jobs[id].status == Dead {
        var r := jobs[id].(status := Pending, attempts := 0, nextAttemptAt := now, lastError := None, updatedAt := now);
        AbsUpdate(jobs, id, r);
        jobs := jobs[id := r];
        return Some(true);
      }
      return Some(false);
    }
  }

  /** On a readable table the text query is the chronological one. */
  lemma ReadableClaim(rows: Rows, now: string, limit: nat, answer: seq<Id>)
    requires Stored(now) && FirstByText(DueTexts(rows, now), limit, answer)
    requires forall i | 0 <= i < |answer| :: answer[i] in rows
    ensures Readable(rows) ==> AllLegible(rows, answer) && Oldest(DueTimes(Abs(rows), MsOf(now)), limit, answer)
  {
    if Readable(rows) {
      TextQueryIsChronological(rows, now, limit, answer);
      assert forall i | 0 <= i < |answer| :: RowOk(rows[answer[i]]);
    }
  }

  // ---------------------------------------------------------------------- the worker

  const CLAIM_LIMIT: nat := 8

  /** What the world does while one job is handled. */
  datatype Env = Env(result: Result, now: Instant, jitter: real, fault: bool)

  function Due(cfg: Config, h: Held, env: Env): int {
    env.now + 1_000_000 * Backoff.KWait(h.job.attempts, cfg.baseMs, cfg.maxMs, env.jitter)
  }

  predicate Retries(h: Held, env: Env) {
    env.result.Failed? && h.job.attempts < h.job.maxAttempts
  }

  /** The clock is in the years 0000 to 9999, and a retry's due time not before. */
  predicate Stampable(cfg: Config, h: Held, env: Env) {
    YearOf(env.now) <= 9999 && (Retries(h, env) ==> FIRST <= Due(cfg, h, env))
  }

  /** A retry's due time, if there is one, is in these years too. */
  predicate InEra(cfg: Config, h: Held, env: Env)
    requires Stampable(cfg, h, env)
  {
    Retries(h, env) ==> YearOf(Due(cfg, h, env)) <= 9999
  }

  ghost predicate AllStampable(cfg: Config, batch: seq<Held>, envs: seq<Env>) {
    |envs| == |batch| && forall i | 0 <= i < |batch| :: Stampable(cfg, batch[i], envs[i])
  }

  ghost predicate AllInEra(cfg: Config, batch: seq<Held>, envs: seq<Env>)
    requires AllStampable(cfg, batch, envs)
  {
    forall i | 0 <= i < |batch| :: InEra(cfg, batch[i], envs[i])
  }

  /** The two outcomes of a failed delivery. */
  lemma HandledFailure(cfg: Config, jobs: Jobs, h: Held, env: Env)
    requires env.result.Failed? && !env.fault && Stampable(cfg, h, env)
    ensures !Retries(h, env) ==> Handled(cfg, jobs, h, env) == AfterDeath(jobs, h.id, env.result.err, Millis(env.now))
    ensures Retries(h, env) ==>
      Handled(cfg, jobs, h, env) == AfterReschedule(jobs, h.id, Millis(Due(cfg, h, env)), env.result.err, Millis(env.now))
  {
    if Retries(h, env) {
      assert Millis(Due(cfg, h, env)) == Millis(env.now) + Backoff.KWait(h.job.attempts, cfg.baseMs, cfg.maxMs, env.jitter);
    }
  }

  function Handled(cfg: Config, jobs: Jobs, h: Held, env: Env): Jobs {
    if env.fault then jobs else RecordedJobs(cfg, jobs, h, env.result, env.jitter, Millis(env.now))
  }

  function HandledAll(cfg: Config, jobs: Jobs, batch: seq<Held>, envs: seq<Env>): Jobs
    requires |envs| == |batch|
  {
    if batch == [] then jobs
    else
      var n := |batch| - 1;
      Handled(cfg, HandledAll(cfg, jobs, batch[..n], envs[..n]), batch[n], envs[n])
  }

  lemma HandledNext(cfg: Config, jobs: Jobs, batch: seq<Held>, envs: seq<Env>, i: nat)
    requires |envs| == |batch| && i < |batch|
    ensures HandledAll(cfg, jobs, batch[..i + 1], envs[..i + 1]) == Handled(cfg, HandledAll(cfg, jobs, batch[..i], envs[..i]), batch[i], envs[i])
  {
    assert batch[..i + 1][..i] == batch[..i] && envs[..i + 1][..i] == envs[..i];
  }

  // the same on stored rows, for due times of any year

  /** The stored row once the job has been handled, at `now`, with the next due time. */
  function RowAt(r: Row, h: Held, env: Env, now: string, due: string): Row {
    if env.fault then r
    else if env.result.Ok? then r.MarkedDelivered(now)
    else if Retries(h, env) then r.Rescheduled(due, env.result.err, now)
    else r.MarkedDead(env.result.err, now)
  }

  function HandledRow(cfg: Config, r: Row, h: Held, env: Env): Row
    requires Stampable(cfg, h, env)
  {
    RowAt(r, h, env, FmtTs(env.now), if Retries(h, env) then FmtTs(Due(cfg, h, env)) else "")
  }

  /** What the rows of a batch become. */
  ghost function HandledRows(cfg: Config, before: Rows, batch: seq<Held>, envs: seq<Env>): seq<Option<Row>>
    requires AllStampable(cfg, batch, envs)
  {
    seq(|batch|, i requires 0 <= i < |batch| =>
      if batch[i].id in before then Some(HandledRow(cfg, before[batch[i].id], batch[i], envs[i])) else None)
  }

  /** The first `n` rows of the batch have been written, and no other. */
  ghost predicate Written(before: Rows, after: Rows, batch: seq<Held>, goals: seq<Option<Row>>, n: nat)
    requires |goals| == |batch| && n <= |batch|
  {
    && after.Keys == before.Keys
    && (forall id | id in before && Untouched(batch, n, id) :: after[id] == before[id])
    && (forall i | 0 <= i < n && goals[i].Some? && batch[i].id in after :: after[batch[i].id] == goals[i].value)
  }

  ghost predicate Untouched(batch: seq<Held>, n: nat, id: Id)
    requires n <= |batch|
  {
    forall i | 0 <= i < n :: batch[i].id != id
  }

  ghost predicate DistinctIds(batch: seq<Held>) {
    forall i, j | 0 <= i < j < |batch| :: batch[i].id != batch[j].id
  }

  /** One row is handled, and no other is written. */
  ghost predicate RowHandled(cfg: Config, before: Rows, after: Rows, h: Held, env: Env)
    requires Stampable(cfg, h, env)
  {
    after == if h.id in before then before[h.id := HandledRow(cfg, before[h.id], h, env)] else before
  }

  lemma WrittenNext(before: Rows, after: Rows, batch: seq<Held>, goals: seq<Option<Row>>, n: nat, after': Rows)
    requires |goals| == |batch| && n < |batch| && Written(before, after, batch, goals, n) && DistinctIds(batch)
    requires after' == if goals[n].Some? then after[batch[n].id := goals[n].value] else after
    requires goals[n].Some? <==> batch[n].id in before
    ensures Written(before, after', batch, goals, n + 1)
  {
    forall id | id in before && Untouched(batch, n + 1, id) ensures after'[id] == before[id] {
      assert batch[n].id != id && Untouched(batch, n, id);
    }
    forall i | 0 <= i < n + 1 && goals[i].Some? && batch[i].id in after' ensures after'[batch[i].id] == goals[i].value {
      assert i < n ==> batch[i].id != batch[n].id;
    }
  }

  lemma RowsNext(cfg: Config, before: Rows, after: Rows, batch: seq<Held>, envs: seq<Env>, n: nat, after': Rows)
    requires AllStampable(cfg, batch, envs) && n < |batch| && DistinctIds(batch)
    requires Written(before, after, batch, HandledRows(cfg, before, batch, envs), n) && RowHandled(cfg, after, after', batch[n], envs[n])
    ensures Written(before, after', batch, HandledRows(cfg, before, batch, envs), n + 1)
  {
    assert Untouched(batch, n, batch[n].id);
    WrittenNext(before, after, batch, HandledRows(cfg, before, batch, envs), n, after');
  }

  /** In these years the stored row says what the protocol has for the job. */
  lemma HandledRowIs(cfg: Config, r: Row, h: Held, env: Env)
    requires Stampable(cfg, h, env) && InEra(cfg, h, env)
    ensures RowOk(r) ==> RowOk(HandledRow(cfg, r, h, env))
    ensures map[h.id := AbsJob(HandledRow(cfg, r, h, env))] == Handled(cfg, map[h.id := AbsJob(r)], h, env)
  {
    ParseFormatted(env.now);
    if Retries(h, env) {
      ParseFormatted(Due(cfg, h, env));
      RowAtIs(cfg, r, h, env, FmtTs(env.now), FmtTs(Due(cfg, h, env)));
    } else {
      RowAtIs(cfg, r, h, env, FmtTs(env.now), "");
    }
  }

  lemma RowAtIs(cfg: Config, r: Row, h: Held, env: Env, now: string, due: string)
    requires Stampable(cfg, h, env) && Stored(now) && MsOf(now) == Millis(env.now)
    requires Retries(h, env) ==> Stored(due) && MsOf(due) == Millis(Due(cfg, h, env))
    ensures RowOk(r) ==> RowOk(RowAt(r, h, env, now, due))
    ensures map[h.id := AbsJob(RowAt(r, h, env, now, due))] == Handled(cfg, map[h.id := AbsJob(r)], h, env)
  {
    if env.result.Failed? && !env.fault { FailedRowIs(cfg, r, h, env, now, due); }
  }

  lemma FailedRowIs(cfg: Config, r: Row, h: Held, env: Env, now: string, due: string)
    requires Stampable(cfg, h, env) && Stored(now) && MsOf(now) == Millis(env.now)
    requires Retries(h, env) ==> Stored(due) && MsOf(due) == Millis(Due(cfg, h, env))
    requires env.result.Failed? && !env.fault
    ensures map[h.id := AbsJob(RowAt(r, h, env, now, due))] == Handled(cfg, map[h.id := AbsJob(r)], h, env)
  {
    HandledFailure(cfg, map[h.id := AbsJob(r)], h, env);
  }

  class Worker {
    const db: Db
    const cfg: Config

    constructor (db: Db, cfg: Config)
      ensures this.db == db && this.cfg == cfg
    {
      this.db, this.cfg := db, cfg;
    }

    /** A retry due past the year 9999 leaves a row that jams every claim. */
    method HandleOne(h: Held, env: Env)
      requires Stampable(cfg, h, env)
      modifies db
      ensures InEra(cfg, h, env) ==> (old(db.Valid()) ==> db.Valid()) && Abs(db.jobs) == Handled(cfg, Abs(old(db.jobs)), h, env)
      ensures RowHandled(cfg, old(db.jobs), db.jobs, h, env)
      ensures !InEra(cfg, h, env) && !env.fault && h.id in old(db.jobs) ==>
        h.id in db.jobs && db.jobs[h.id].status == Pending && Far(db.jobs[h.id].nextAttemptAt)
    {
      var now := StampOf(env.now);
      if !env.fault && env.result.Failed? { HandledFailure(cfg, Abs(db.jobs), h, env); }
      match env.result
      case Ok =>
        db.MarkDelivered(h.id, now, env.fault);
      case Failed(err) =>
        if h.job.attempts >= h.job.maxAttempts {
          db.MarkDead(h.id, err, now, env.fault);
        } else {
          var due := StampOf(Due(cfg, h, env));
          db.RescheduleJob(h.id, due, err, now, env.fault);
        }
    }

    method HandleAll(batch: seq<Held>, envs: seq<Env>)
      requires AllStampable(cfg, batch, envs) && DistinctIds(batch)
      modifies db
      ensures Written(old(db.jobs), db.jobs, batch, HandledRows(cfg, old(db.jobs), batch, envs), |batch|)
      ensures AllInEra(cfg, batch, envs) ==> (old(db.Valid()) ==> db.Valid()) && Abs(db.jobs) == HandledAll(cfg, Abs(old(db.jobs)), batch, envs)
    {
      ghost var rows, valid, inEra := db.jobs, db.Valid(), AllInEra(cfg, batch, envs);
      ghost var before := Abs(rows);
      for i := 0 to |batch|
        invariant Written(rows, db.jobs, batch, HandledRows(cfg, rows, batch, envs), i)
        invariant inEra ==> (valid ==> db.Valid()) && Abs(db.jobs) == HandledAll(cfg, before, batch[..i], envs[..i])
      {
        assert Stampable(cfg, batch[i], envs[i]) && (inEra ==> InEra(cfg, batch[i], envs[i]));
        ghost var now := db.jobs;
        HandleOne(batch[i], envs[i]);
        RowsNext(cfg, rows, now, batch, envs, i, db.jobs);
        HandledNext(cfg, before, batch, envs, i);
      }
      assert batch[..|batch|] == batch && envs[..|batch|] == envs;
    }

    /** One turn of `worker_loop`; `now` is the clock as text. */
    method Turn(now: string, answer: seq<Id>, fault: bool, envs: seq<Env>)
      requires Stored(now) && FirstByText(DueTexts(db.jobs, now), 8, answer)
      requires AllStampable(cfg, Claims(db.jobs, answer, now), envs)
      modifies db
      ensures fault || !AllLegible(old(db.jobs), answer) ==> db.jobs == old(db.jobs)
      ensures !fault && AllLegible(old(db.jobs), answer) ==>
        var claimed, copies := FlippedAll(old(db.jobs), answer, now), Claims(old(db.jobs), answer, now);
        Written(claimed, db.jobs, copies, HandledRows(cfg, claimed, copies, envs), |answer|)
      ensures !fault && AllLegible(old(db.jobs), answer) && AllInEra(cfg, Claims(old(db.jobs), answer, now), envs) ==>
        && (old(db.Valid()) ==> db.Valid())
        && Abs(db.jobs) == HandledAll(cfg, AfterClaim(Abs(old(db.jobs)), answer, MsOf(now)), Claims(old(db.jobs), answer, now), envs)
    {
      ghost var copies := ClaimedCopies(db.jobs, now, CLAIM_LIMIT, answer);
      var out := db.ClaimDueJobs(CLAIM_LIMIT, now, answer, fault);
      if out.Some? {
        assert out.value == copies;
        HandleAll(out.value, envs);
      }
    }
  }

  /** The copies that a claim of `answer` returns. */
  ghost function Claims(rows: Rows, answer: seq<Id>, now: string): seq<Held> {
    seq(|answer|, i requires 0 <= i < |answer| =>
      Held(answer[i], if answer[i] in rows then AbsJob(rows[answer[i]]).Claimed(MsOf(now)) else FreshJob("", "", 1, 0)))
  }

  lemma ClaimedCopies(rows: Rows, now: string, limit: nat, answer: seq<Id>) returns (copies: seq<Held>)
    requires FirstByText(DueTexts(rows, now), limit, answer)
    ensures var claimed := AfterClaim(Abs(rows), answer, MsOf(now));
      (forall i | 0 <= i < |answer| :: answer[i] in claimed) && copies == Copies(claimed, answer)
    ensures copies == Claims(rows, answer, now) && DistinctIds(copies)
  {
    DueFacts(rows, now, limit, answer);
    copies := Claims(rows, answer, now);
    forall i, j | 0 <= i < j < |copies| ensures copies[i].id != copies[j].id { assert answer[i] in answer[..j]; }
  }

  // ------------------------------------------------- the worker follows the protocol

  /** What `HandleOne` leaves in the table is what some run of the protocol,
      taking only this worker's steps and the clock, leaves there. */
  lemma HandleIsARun(cfg: Config, s: State, w: nat, env: Env) returns (b: seq<State>, steps: seq<Step>)
    requires w < |s.workers| && s.workers[w].batch != [] && s.workers[w].answer == None && s.clock <= Millis(env.now)
    requires -0.2 <= env.jitter < 0.2
    ensures IsRun(cfg, b, steps) && b[0] == s
    ensures var s', wk := b[|b| - 1], s.workers[w];
      && s'.jobs == Handled(cfg, s.jobs, wk.batch[0], env)
      && s'.workers == s.workers[w := KProtocol.Worker(wk.batch[1..], None)]
      && s'.clock == Millis(env.now)
  {
    var id := s.workers[w].batch[0].id;
    b, steps := Append(cfg, [s], [], Deliver(w, id, env.result));
    b, steps := Append(cfg, b, steps, Advance(Millis(env.now)));
    b, steps := Append(cfg, b, steps, Record(w, id, env.jitter, env.fault));
  }
}
