/** q as a transition system: any number of workers, HTTP submissions, replays,
    crashes and a clock, interleaved statement by statement.

    A worker's `todo` is the listed rows it has not processed yet; they are
    copies and may be stale. The clock reading of a statement is the clock at
    its commit, so readings never decrease in commit order. The ledger is
    history: it records sends and their answers and no step reads it. */
module QProtocol {
  import opened Common
  import opened Selection
  import opened QStore
  import opened QClassify
  import Backoff

  datatype Config = Config(staleMs: int, limit: nat, baseMs: Backoff.u64, maxMs: Backoff.u64)

  datatype Listed = Listed(id: Id, row: Delivery)

  datatype Phase =
    | Starting                                  // before the stale reset of `run`
    | Ready                                     // between two rows, or polling
    | Sending(d: Listed)                        // claim won, request under way
    | Answered(d: Listed, outcome: Outcome)     // outcome known, not yet recorded

  datatype Worker = Worker(phase: Phase, todo: seq<Listed>)

  /** History of one row since its insert or last replay, and over all time. */
  datatype Ledger = Ledger(
    answers: seq<Outcome>,   // one per send since the insert or last replay
    unrecorded: nat,         // of these, sends whose outcome never reached the row
    bySend: bool,            // dead-lettered by a completed send
    replays: nat,            // successful replays, ever
    acknowledged: bool)      // some send, ever, was answered 2xx

  datatype Lookup = Lookup(key: Option<string>, existing: Id)
  datatype Reply = Reply(key: Option<string>, id: Id, status: Option<Status>)   // None: "unknown"

  datatype State = State(
    rows: Rows, dlq: seq<DlqEntry>, workers: seq<Worker>, clock: int,
    ledger: map<Id, Ledger>, lookups: seq<Lookup>, replies: seq<Reply>)

  datatype Step =
    | Submit(d: NewDelivery)
    | AnswerDuplicate(i: nat, fault: bool)
    | Startup(w: nat, reset: set<Id>)
    | List(w: nat, batch: seq<Id>)
    | Reject(w: nat, id: Id, err: string, fault: bool)
    | Claim(w: nat, id: Id, fault: bool)
    | Send(w: nat, id: Id, outcome: Outcome)
    | Record(w: nat, id: Id, draw: Backoff.u64, fault: bool)
    | Replay(id: Id)
    | Crash
    | Advance(now: int)

  const NEW_LEDGER := Ledger([], 0, false, 0, false)

  function Init(workers: nat): State {
    State(map[], [], seq(workers, _ => Worker(Starting, [])), 0, map[], [], [])
  }

  predicate Holding(wk: Worker, id: Id) {
    (wk.phase.Sending? || wk.phase.Answered?) && wk.phase.d.id == id
  }

  predicate NextUp(s: State, w: nat, id: Id) {
    w < |s.workers| && s.workers[w].phase.Ready? && s.workers[w].todo != [] && s.workers[w].todo[0].id == id
  }

  ghost predicate Enabled(cfg: Config, s: State, st: Step) {
    match st
    case Submit(d) => true
    case AnswerDuplicate(i, _) => i < |s.lookups|
    case Startup(w, reset) =>
      w < |s.workers| && s.workers[w].phase.Starting? && (reset == StaleIds(s.rows, s.clock, cfg.staleMs) || reset == {})
    case List(w, batch) =>
      && w < |s.workers| && s.workers[w] == Worker(Ready, [])
      && (Oldest(DueTimes(s.rows, s.clock), cfg.limit, batch) || batch == [])
    case Reject(w, id, _, _) => NextUp(s, w, id)
    case Claim(w, id, _) => NextUp(s, w, id)
    case Send(w, id, _) => w < |s.workers| && s.workers[w].phase.Sending? && s.workers[w].phase.d.id == id
    case Record(w, id, _, _) => w < |s.workers| && s.workers[w].phase.Answered? && s.workers[w].phase.d.id == id
    case Replay(id) => true
    case Crash => true
    case Advance(now) => s.clock <= now
  }

  /** The retry decision is taken on the listed copy, not on the row. */
  predicate LastAttempt(d: Listed) {
    d.row.attempts + 1 >= d.row.maxAttempts
  }

  predicate Buries(d: Listed, outcome: Outcome) {
    outcome.Permanent? || (outcome.Retryable? && LastAttempt(d))
  }

  function RecordedRows(cfg: Config, rows: Rows, d: Listed, outcome: Outcome, draw: Backoff.u64, now: int): Rows {
    match outcome
    case Delivered => AfterDelivered(rows, d.id, now)
    case Retryable(err) =>
      if LastAttempt(d) then AfterBurial(rows, d.id, err, now)
      else AfterRetry(rows, d.id, now + Backoff.AsI64(Backoff.NextDelayMs(d.row.attempts + 1, cfg.baseMs, cfg.maxMs, draw)), err, now)
    case Permanent(err) => AfterBurial(rows, d.id, err, now)
  }

  function RecordedDlq(rows: Rows, dlq: seq<DlqEntry>, d: Listed, outcome: Outcome, now: int): seq<DlqEntry> {
    if Buries(d, outcome) then DlqAfterBurial(rows, dlq, d.id, outcome.err, now) else dlq
  }

  function RecordedLedger(l: Ledger, d: Listed, outcome: Outcome, fault: bool): Ledger {
    if fault then l.(unrecorded := l.unrecorded + 1)
    else if Buries(d, outcome) then l.(bySend := true)
    else l
  }

  function Listing(rows: Rows, batch: seq<Id>): seq<Listed>
    requires forall i | 0 <= i < |batch| :: batch[i] in rows
  {
    seq(|batch|, i requires 0 <= i < |batch| => Listed(batch[i], rows[batch[i]]))
  }

  function AnsweredFor(workers: seq<Worker>, id: Id): set<nat> {
    set w: nat | w < |workers| && workers[w].phase.Answered? && workers[w].phase.d.id == id
  }

  function SetWorker(s: State, w: nat, wk: Worker): State
    requires w < |s.workers|
  {
    s.(workers := s.workers[w := wk])
  }

  ghost function Apply(cfg: Config, s: State, st: Step): State
    requires Enabled(cfg, s, st)
  {
    match st
    case Submit(d) =>
      (match InsertAnswer(s.rows, d)
       case Inserted =>
         s.(rows := AfterInsert(s.rows, d, s.clock), ledger := s.ledger[d.id := NEW_LEDGER],
            replies := s.replies + [Reply(d.key, d.id, Some(Pending))])
       case Conflict(existing) => s.(lookups := s.lookups + [Lookup(d.key, existing)])
       case SqliteError => s)
    case AnswerDuplicate(i, fault) =>
      var l := s.lookups[i];
      var status := if fault || l.existing !in s.rows then None else Some(s.rows[l.existing].status);
      s.(lookups := s.lookups[..i] + s.lookups[i + 1..], replies := s.replies + [Reply(l.key, l.existing, status)])
    case Startup(w, reset) =>
      SetWorker(s, w, Worker(Ready, [])).(rows := AfterReset(s.rows, reset, s.clock))
    case List(w, batch) =>
      SetWorker(s, w, Worker(Ready, Listing(s.rows, batch)))
    case Reject(w, id, err, fault) =>
      var s1 := SetWorker(s, w, Worker(Ready, s.workers[w].todo[1..]));
      if fault then s1
      else s1.(rows := AfterBurial(s.rows, id, err, s.clock), dlq := DlqAfterBurial(s.rows, s.dlq, id, err, s.clock))
    case Claim(w, id, fault) =>
      var todo := s.workers[w].todo;
      if !fault && Claimable(s.rows, id) then
        SetWorker(s, w, Worker(Sending(todo[0]), todo[1..])).(rows := AfterClaim(s.rows, id, s.clock))
      else
        SetWorker(s, w, Worker(Ready, todo[1..]))
    case Send(w, id, outcome) =>
      var s1 := SetWorker(s, w, s.workers[w].(phase := Answered(s.workers[w].phase.d, outcome)));
      if id in s.ledger then
        var l := s.ledger[id];
        s1.(ledger := s.ledger[id := l.(answers := l.answers + [outcome], acknowledged := l.acknowledged || outcome.Delivered?)])
      else s1
    case Record(w, id, draw, fault) =>
      var d, outcome := s.workers[w].phase.d, s.workers[w].phase.outcome;
      var s1 := SetWorker(s, w, s.workers[w].(phase := Ready))
        .(ledger := if id in s.ledger then s.ledger[id := RecordedLedger(s.ledger[id], d, outcome, fault)] else s.ledger);
      if fault then s1
      else s1.(rows := RecordedRows(cfg, s.rows, d, outcome, draw, s.clock),
               dlq := RecordedDlq(s.rows, s.dlq, d, outcome, s.clock))
    case Replay(id) =>
      if Replayable(s.rows, id) && id in s.ledger then
        var l := s.ledger[id];
        s.(rows := AfterReplay(s.rows, id, s.clock),
           ledger := s.ledger[id := l.(answers := [], unrecorded := 0, bySend := false, replays := l.replays + 1)])
      else s
    case Crash =>
      s.(workers := seq(|s.workers|, _ => Worker(Starting, [])), lookups := [],
         ledger := map id | id in s.ledger :: s.ledger[id].(unrecorded := s.ledger[id].unrecorded + |AnsweredFor(s.workers, id)|))
    case Advance(now) => s.(clock := now)
  }

  /** `b` is the sequence of states of a run that takes `steps` from `b[0]`. */
  ghost predicate IsRun(cfg: Config, b: seq<State>, steps: seq<Step>) {
    && |b| == |steps| + 1
    && forall i {:trigger steps[i]} | 0 <= i < |steps| :: Enabled(cfg, b[i], steps[i]) && b[i + 1] == Apply(cfg, b[i], steps[i])
  }

  /** ... from the initial state with `workers` workers. */
  ghost predicate IsService(cfg: Config, workers: nat, b: seq<State>, steps: seq<Step>) {
    IsRun(cfg, b, steps) && b[0] == Init(workers)
  }

  /** A run taken one step further. */
  lemma Append(cfg: Config, b: seq<State>, steps: seq<Step>, st: Step) returns (b': seq<State>, steps': seq<Step>)
    requires IsRun(cfg, b, steps) && Enabled(cfg, b[|b| - 1], st)
    ensures IsRun(cfg, b', steps') && b' == b + [Apply(cfg, b[|b| - 1], st)] && steps' == steps + [st]
  {
    b', steps' := b + [Apply(cfg, b[|b| - 1], st)], steps + [st];
    forall i | 0 <= i < |steps'| ensures Enabled(cfg, b'[i], steps'[i]) && b'[i + 1] == Apply(cfg, b'[i], steps'[i]) {
      if i < |steps| { assert steps'[i] == steps[i] && b'[i] == b[i] && b'[i + 1] == b[i + 1]; }
    }
  }

  // -------------------------------------------------------- what every run keeps

  ghost predicate SnapshotOk(rows: Rows, d: Listed) {
    d.id in rows && rows[d.id].SameSubmission(d.row)
  }

  ghost predicate WorkerOk(rows: Rows, wk: Worker) {
    && (forall i | 0 <= i < |wk.todo| :: SnapshotOk(rows, wk.todo[i]))
    && (forall i, j | 0 <= i < j < |wk.todo| :: wk.todo[i].id != wk.todo[j].id)
    && (wk.phase.Sending? || wk.phase.Answered? ==>
          && SnapshotOk(rows, wk.phase.d)
          && forall i | 0 <= i < |wk.todo| :: wk.todo[i].id != wk.phase.d.id)
  }

  ghost predicate AnswerOk(s: State, wk: Worker) {
    wk.phase.Answered? && wk.phase.outcome.Delivered? ==> wk.phase.d.id in s.ledger && s.ledger[wk.phase.d.id].acknowledged
  }

  ghost predicate HistoryOk(s: State) {
    && s.ledger.Keys == s.rows.Keys
    && forall id | id in s.rows && s.rows[id].status == Status.Delivered :: s.ledger[id].acknowledged
  }

  /** In every reachable state. */
  ghost predicate Sane(s: State) {
    && HistoryOk(s)
    && UniqueKeys(s.rows)
    && (forall w | 0 <= w < |s.workers| :: WorkerOk(s.rows, s.workers[w]))
    && (forall w | 0 <= w < |s.workers| :: AnswerOk(s, s.workers[w]))
  }

  /** Rows only change in the columns the statements write. */
  ghost predicate Keeps(rows: Rows, rows': Rows) {
    forall id | id in rows :: id in rows' && rows'[id].SameSubmission(rows[id])
  }

  lemma StepKeeps(cfg: Config, s: State, st: Step)
    requires Enabled(cfg, s, st)
    ensures Keeps(s.rows, Apply(cfg, s, st).rows)
    ensures |Apply(cfg, s, st).workers| == |s.workers|
    ensures s.clock <= Apply(cfg, s, st).clock
  {
    RowsKept(cfg, s, st);
  }

  lemma RowsKept(cfg: Config, s: State, st: Step)
    requires Enabled(cfg, s, st)
    ensures Keeps(s.rows, Apply(cfg, s, st).rows)
  {
    if st.Record? {
      RecordKeeps(cfg, s, st);
    }
  }

  lemma RecordKeeps(cfg: Config, s: State, st: Step)
    requires Enabled(cfg, s, st) && st.Record?
    ensures Keeps(s.rows, Apply(cfg, s, st).rows)
  {
  }

  lemma WorkersCarryOver(s: State, s': State, w: nat)
    requires w < |s.workers| && WorkerOk(s.rows, s.workers[w]) && Keeps(s.rows, s'.rows)
    ensures WorkerOk(s'.rows, s.workers[w])
  {
  }

  lemma StepWorkers(cfg: Config, s: State, st: Step, w: nat)
    requires Sane(s) && Enabled(cfg, s, st) && w < |s.workers|
    ensures WorkerOk(Apply(cfg, s, st).rows, Apply(cfg, s, st).workers[w])
  {
    StepKeeps(cfg, s, st);
    WorkersCarryOver(s, Apply(cfg, s, st), w);
    if Apply(cfg, s, st).workers[w] == s.workers[w] {
    } else if st.List? {
      ListWorker(cfg, s, st);
    } else if st.Reject? || st.Claim? {
      NextWorker(cfg, s, st);
    } else {
      SameTodo(cfg, s, st, w);
    }
  }

  lemma ListWorker(cfg: Config, s: State, st: Step)
    requires Enabled(cfg, s, st) && st.List?
    ensures WorkerOk(Apply(cfg, s, st).rows, Apply(cfg, s, st).workers[st.w])
  {
    assert Apply(cfg, s, st).workers[st.w].todo == Listing(s.rows, st.batch);
  }

  lemma NextWorker(cfg: Config, s: State, st: Step)
    requires Enabled(cfg, s, st) && (st.Reject? || st.Claim?)
    requires WorkerOk(Apply(cfg, s, st).rows, s.workers[st.w])
    ensures WorkerOk(Apply(cfg, s, st).rows, Apply(cfg, s, st).workers[st.w])
  {
    var before := s.workers[st.w].todo;
    assert forall i | 0 <= i < |before| - 1 :: before[1..][i] == before[i + 1];
  }

  /** Starting, sending, recording and crashing list nothing new. */
  lemma SameTodo(cfg: Config, s: State, st: Step, w: nat)
    requires Enabled(cfg, s, st) && w < |s.workers| && (st.Startup? || st.Send? || st.Record? || st.Crash?)
    requires WorkerOk(Apply(cfg, s, st).rows, s.workers[w])
    ensures WorkerOk(Apply(cfg, s, st).rows, Apply(cfg, s, st).workers[w])
  {
  }

  lemma StepLedger(cfg: Config, s: State, st: Step)
    requires Sane(s) && Enabled(cfg, s, st)
    ensures Apply(cfg, s, st).ledger.Keys == Apply(cfg, s, st).rows.Keys
  {
    if st.Record? { assert WorkerOk(s.rows, s.workers[st.w]) && SnapshotOk(s.rows, s.workers[st.w].phase.d); }
  }

  lemma StepAcknowledged(cfg: Config, s: State, st: Step, id: Id)
    requires Sane(s) && Enabled(cfg, s, st) && id in s.ledger && s.ledger[id].acknowledged
    ensures id in Apply(cfg, s, st).ledger && Apply(cfg, s, st).ledger[id].acknowledged
  {
  }

  lemma StepHistory(cfg: Config, s: State, st: Step)
    requires Sane(s) && Enabled(cfg, s, st)
    ensures HistoryOk(Apply(cfg, s, st))
    ensures forall id | id in s.ledger && s.ledger[id].acknowledged :: Apply(cfg, s, st).ledger[id].acknowledged
  {
    StepLedger(cfg, s, st);
    forall id | id in s.ledger && s.ledger[id].acknowledged
      ensures id in Apply(cfg, s, st).ledger && Apply(cfg, s, st).ledger[id].acknowledged
    {
      StepAcknowledged(cfg, s, st, id);
    }
    forall id | id in Apply(cfg, s, st).rows && Apply(cfg, s, st).rows[id].status == Status.Delivered
      ensures Apply(cfg, s, st).ledger[id].acknowledged
    {
      DeliveredRow(cfg, s, st, id);
    }
  }

  /** Only recording a 2xx makes a row delivered. */
  lemma DeliveredRow(cfg: Config, s: State, st: Step, id: Id)
    requires Sane(s) && Enabled(cfg, s, st)
    requires id in Apply(cfg, s, st).rows && Apply(cfg, s, st).rows[id].status == Status.Delivered
    ensures id in s.ledger && s.ledger[id].acknowledged
  {
    if st.Record? {
      assert SnapshotOk(s.rows, s.workers[st.w].phase.d) && AnswerOk(s, s.workers[st.w]);
    }
  }

  lemma StepAnswers(cfg: Config, s: State, st: Step, w: nat)
    requires Sane(s) && Enabled(cfg, s, st) && w < |s.workers|
    ensures AnswerOk(Apply(cfg, s, st), Apply(cfg, s, st).workers[w])
  {
    assert AnswerOk(s, s.workers[w]);
    if st.Send? && st.w == w {
      assert WorkerOk(s.rows, s.workers[w]);
    } else {
      StepHistory(cfg, s, st);
      NotSent(cfg, s, st, w);
    }
  }

  lemma NotSent(cfg: Config, s: State, st: Step, w: nat)
    requires Enabled(cfg, s, st) && w < |s.workers| && !(st.Send? && st.w == w)
    ensures Apply(cfg, s, st).workers[w].phase.Answered? ==> Apply(cfg, s, st).workers[w] == s.workers[w]
  {
  }

  lemma StepSane(cfg: Config, s: State, st: Step)
    requires Sane(s) && Enabled(cfg, s, st)
    ensures Sane(Apply(cfg, s, st))
  {
    var s' := Apply(cfg, s, st);
    StepKeeps(cfg, s, st);
    StepHistory(cfg, s, st);
    forall w | 0 <= w < |s'.workers| ensures WorkerOk(s'.rows, s'.workers[w]) { StepWorkers(cfg, s, st, w); }
    forall w | 0 <= w < |s'.workers| ensures AnswerOk(s', s'.workers[w]) { StepAnswers(cfg, s, st, w); }
    StepKeys(cfg, s, st);
  }

  lemma StepKeys(cfg: Config, s: State, st: Step)
    requires Sane(s) && Enabled(cfg, s, st)
    ensures UniqueKeys(Apply(cfg, s, st).rows)
  {
    var rows' := Apply(cfg, s, st).rows;
    StepKeeps(cfg, s, st);
    forall i, j | i in rows' && j in rows' && rows'[i].key.Some? && rows'[i].key == rows'[j].key
      ensures i == j
    {
      if i in s.rows && j in s.rows { assert s.rows[i].key == s.rows[j].key; }
    }
  }

  lemma {:induction false} RunSane(cfg: Config, workers: nat, b: seq<State>, steps: seq<Step>, i: nat)
    requires IsService(cfg, workers, b, steps) && i < |b|
    ensures Sane(b[i]) && |b[i].workers| == workers
  {
    if i > 0 {
      RunSane(cfg, workers, b, steps, i - 1);
      var st := steps[i - 1];
      StepSane(cfg, b[i - 1], st);
      StepKeeps(cfg, b[i - 1], st);
    }
  }
}
