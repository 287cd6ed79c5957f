/** d: a move inserts before it deletes, so nothing accepted is ever lost, and
    every surplus copy is accounted for. */
module DCopies {
  import opened Common
  import opened Selection
  import opened DProtocol

  /** Of these rows, the ones that descend from submission `c`. */
  function Descendants(s: State, ids: set<Id>, c: Id): set<Id> {
    set id | id in ids && OriginOf(s, id) == c
  }

  /** Rows, in either table, that descend from submission `c`. */
  function Copies(s: State, c: Id): nat {
    |Descendants(s, s.jobs.Keys, c)| + |Descendants(s, s.dead.Keys, c)|
  }

  /** The row being moved, and its copy. */
  function MovedTo(s: State): Option<Id> {
    match s.lock
    case Free => None
    case Moving(entry) => Some(entry)
    case Redelivering(q, job) => Some(job)
  }

  predicate Midway(s: State, c: Id) {
    MovedTo(s).Some? && OriginOf(s, MovedTo(s).value) == c
  }

  function One(p: bool): nat { if p then 1 else 0 }

  /** The events that leave a surplus copy behind: a move of `c` stopped
      between its statements, or a DELETE that finds the row gone. */
  ghost predicate Slips(s: State, st: Step, c: Id) {
    && Midway(s, c)
    && (|| st.Crash?
        || (st.DeleteJob? && st.fault)
        || (st.DeleteEntry? && s.lock.Redelivering? && s.lock.q in s.requests && (st.fault || s.requests[s.lock.q].entryId !in s.dead)))
  }

  ghost predicate OriginsStay(s: State, s': State) {
    forall id | id in s.jobs || id in s.dead :: OriginOf(s', id) == OriginOf(s, id)
  }

  lemma StepOrigins(cfg: Config, s: State, st: Step)
    requires Sane(s) && Enabled(s, st)
    ensures OriginsStay(s, Apply(cfg, s, st))
  {
    StepGrows(cfg, s, st);
    assert forall id | id in s.jobs :: JobOk(s, id);
    assert forall id | id in s.dead :: EntryOk(s, id, s.dead[id]);
  }

  lemma SameOrigins(s: State, s': State, ids: set<Id>, c: Id)
    requires forall id | id in ids :: OriginOf(s', id) == OriginOf(s, id)
    ensures Descendants(s', ids, c) == Descendants(s, ids, c)
  {
  }

  lemma OneMore(s: State, ids: set<Id>, id: Id, c: Id)
    requires id !in ids
    ensures |Descendants(s, ids + {id}, c)| == |Descendants(s, ids, c)| + One(OriginOf(s, id) == c)
  {
    var more := Descendants(s, ids + {id}, c);
    if OriginOf(s, id) == c {
      assert more == Descendants(s, ids, c) + {id};
    } else {
      assert more == Descendants(s, ids, c);
    }
  }

  lemma Unmoved(s: State, s': State, c: Id)
    requires OriginsStay(s, s') && s'.jobs.Keys == s.jobs.Keys && s'.dead == s.dead
    ensures Copies(s', c) == Copies(s, c)
  {
    SameOrigins(s, s', s.jobs.Keys, c);
    SameOrigins(s, s', s.dead.Keys, c);
  }

  lemma JobAdded(s: State, s': State, id: Id, c: Id)
    requires OriginsStay(s, s') && id !in s.jobs && s'.jobs.Keys == s.jobs.Keys + {id} && s'.dead == s.dead
    ensures Copies(s', c) == Copies(s, c) + One(OriginOf(s', id) == c)
  {
    SameOrigins(s, s', s.jobs.Keys, c);
    SameOrigins(s, s', s.dead.Keys, c);
    OneMore(s', s.jobs.Keys, id, c);
  }

  lemma EntryAdded(s: State, s': State, id: Id, c: Id)
    requires OriginsStay(s, s') && id !in s.dead && s'.dead.Keys == s.dead.Keys + {id} && s'.jobs == s.jobs
    ensures Copies(s', c) == Copies(s, c) + One(OriginOf(s', id) == c)
  {
    SameOrigins(s, s', s.jobs.Keys, c);
    SameOrigins(s, s', s.dead.Keys, c);
    OneMore(s', s.dead.Keys, id, c);
  }

  lemma JobGone(s: State, s': State, id: Id, c: Id)
    requires s'.ledger == s.ledger && id in s.jobs && s'.jobs == s.jobs - {id} && s'.dead == s.dead
    ensures Copies(s', c) == Copies(s, c) - One(OriginOf(s, id) == c)
  {
    assert s.jobs.Keys == s'.jobs.Keys + {id};
    OneMore(s, s'.jobs.Keys, id, c);
    SameOrigins(s, s', s'.jobs.Keys, c);
    SameOrigins(s, s', s.dead.Keys, c);
  }

  lemma EntryGone(s: State, s': State, id: Id, c: Id)
    requires s'.ledger == s.ledger && id in s.dead && s'.dead == s.dead - {id} && s'.jobs == s.jobs
    ensures Copies(s', c) == Copies(s, c) - One(OriginOf(s, id) == c)
  {
    assert s.dead.Keys == s'.dead.Keys + {id};
    OneMore(s, s'.dead.Keys, id, c);
    SameOrigins(s, s', s.jobs.Keys, c);
    SameOrigins(s, s', s'.dead.Keys, c);
  }

  /** Copies beyond the row a move is about to delete. */
  ghost function Settled(s: State, c: Id): int {
    Copies(s, c) - One(Midway(s, c))
  }

  lemma StepCopies(cfg: Config, s: State, st: Step, c: Id)
    requires Sane(s) && Enabled(s, st) && c in s.accepted
    ensures Settled(Apply(cfg, s, st), c) == Settled(s, c) + One(Slips(s, st, c))
  {
    if (st.InsertEntry? || st.InsertJob?) && !st.fault {
      InsertCopies(cfg, s, st, c);
    } else if st.Enqueue? {
      EnqueueCopies(cfg, s, st, c);
    } else if (st.DeleteJob? && !st.fault) || st.DeleteEntry? {
      DeleteCopies(cfg, s, st, c);
    } else {
      OtherCopies(cfg, s, st, c);
    }
  }

  lemma InsertCopies(cfg: Config, s: State, st: Step, c: Id)
    requires Sane(s) && Enabled(s, st) && (st.InsertEntry? || st.InsertJob?) && !st.fault
    ensures Settled(Apply(cfg, s, st), c) == Settled(s, c)
  {
    if st.InsertEntry? {
      EntryCopies(cfg, s, st, c);
    } else {
      JobCopies(cfg, s, st, c);
    }
  }

  lemma EntryCopies(cfg: Config, s: State, st: Step, c: Id)
    requires Sane(s) && Enabled(s, st) && st.InsertEntry? && !st.fault
    ensures Settled(Apply(cfg, s, st), c) == Settled(s, c)
  {
    StepOrigins(cfg, s, st);
    EntryAdded(s, Apply(cfg, s, st), st.entry, c);
  }

  lemma JobCopies(cfg: Config, s: State, st: Step, c: Id)
    requires Sane(s) && Enabled(s, st) && st.InsertJob? && !st.fault
    ensures Settled(Apply(cfg, s, st), c) == Settled(s, c)
  {
    StepOrigins(cfg, s, st);
    JobAdded(s, Apply(cfg, s, st), st.id, c);
  }

  lemma EnqueueCopies(cfg: Config, s: State, st: Step, c: Id)
    requires Sane(s) && Enabled(s, st) && st.Enqueue?
    ensures Settled(Apply(cfg, s, st), c) == Settled(s, c) + One(st.id == c)
  {
    StepOrigins(cfg, s, st);
    JobAdded(s, Apply(cfg, s, st), st.id, c);
  }

  lemma DeleteCopies(cfg: Config, s: State, st: Step, c: Id)
    requires Sane(s) && Enabled(s, st) && ((st.DeleteJob? && !st.fault) || st.DeleteEntry?)
    ensures Settled(Apply(cfg, s, st), c) == Settled(s, c) + One(Slips(s, st, c))
  {
    var s' := Apply(cfg, s, st);
    if st.DeleteJob? {
      JobGone(s, s', s.todo[0].id, c);
    } else {
      var id := s.requests[s.lock.q].entryId;
      if !st.fault && id in s.dead {
        EntryGone(s, s', id, c);
      } else {
        assert s'.dead == s.dead;
        Unmoved(s, s', c);
      }
    }
  }

  /** Steps that leave both sets of ids alone. */
  predicate Still(st: Step) {
    || st.Fetch? || st.Judge? || st.Record? || st.Lookup? || st.Crash? || st.Advance?
    || ((st.InsertEntry? || st.InsertJob? || st.DeleteJob?) && st.fault)
  }

  lemma OtherCopies(cfg: Config, s: State, st: Step, c: Id)
    requires Sane(s) && Enabled(s, st) && Still(st)
    ensures Settled(Apply(cfg, s, st), c) == Settled(s, c) + One(Slips(s, st, c))
  {
    StepOrigins(cfg, s, st);
    SameTables(cfg, s, st);
    Unmoved(s, Apply(cfg, s, st), c);
    OtherMidway(cfg, s, st, c);
  }

  lemma OtherMidway(cfg: Config, s: State, st: Step, c: Id)
    requires Sane(s) && Enabled(s, st) && Still(st)
    ensures One(Midway(Apply(cfg, s, st), c)) == One(Midway(s, c)) - One(Slips(s, st, c))
  {
    StepOrigins(cfg, s, st);
  }

  lemma SameTables(cfg: Config, s: State, st: Step)
    requires Sane(s) && Enabled(s, st) && Still(st)
    ensures Apply(cfg, s, st).jobs.Keys == s.jobs.Keys && Apply(cfg, s, st).dead == s.dead
  {
    if st.Record? {
      RecordTables(cfg, s, st);
    }
  }

  lemma RecordTables(cfg: Config, s: State, st: Step)
    requires Enabled(s, st) && st.Record?
    ensures Apply(cfg, s, st).jobs.Keys == s.jobs.Keys && Apply(cfg, s, st).dead == s.dead
  {
    var jobs := if st.fault then s.jobs else RecordedJobs(cfg, s.jobs, s.todo[0], s.verdict.value, st.jitter, s.clock);
    assert jobs.Keys == s.jobs.Keys;
  }

  /** How often that happened to `c` in the first `i` steps. */
  ghost function Surplus(b: seq<State>, steps: seq<Step>, i: nat, c: Id): nat
    requires i <= |steps| && |b| == |steps| + 1
  {
    if i == 0 then 0 else Surplus(b, steps, i - 1, c) + One(Slips(b[i - 1], steps[i - 1], c))
  }

  /** Over every run: an accepted submission has one row, one more while a
      move of it is midway, and one more for each move that slipped. */
  lemma {:induction false} CopiesExact(cfg: Config, b: seq<State>, steps: seq<Step>, i: nat, c: Id)
    requires IsService(cfg, b, steps) && i < |b| && c in b[i].accepted
    ensures Copies(b[i], c) == 1 + One(Midway(b[i], c)) + Surplus(b, steps, i, c)
  {
    if i > 0 {
      var s, st := b[i - 1], steps[i - 1];
      RunSane(cfg, b, steps, i - 1);
      if c in s.accepted {
        CopiesExact(cfg, b, steps, i - 1, c);
        StepCopies(cfg, s, st, c);
      } else {
        FirstCopy(cfg, b, steps, i, c);
      }
    }
  }

  /** Nothing descends from a submission before it is accepted. */
  lemma {:induction false} NoCopyBefore(cfg: Config, b: seq<State>, steps: seq<Step>, i: nat, c: Id)
    requires IsService(cfg, b, steps) && i < |b| && c !in b[i].accepted
    ensures Copies(b[i], c) == 0 && !Midway(b[i], c) && Surplus(b, steps, i, c) == 0
  {
    RunSane(cfg, b, steps, i);
    var s := b[i];
    assert forall id | id in s.jobs :: JobOk(s, id);
    assert forall id | id in s.dead :: EntryOk(s, id, s.dead[id]);
    if s.lock.Redelivering? { assert JobOk(s, s.lock.job); }
    assert Descendants(s, s.jobs.Keys, c) == {} && Descendants(s, s.dead.Keys, c) == {};
    if i > 0 {
      StepGrows(cfg, b[i - 1], steps[i - 1]);
      NoCopyBefore(cfg, b, steps, i - 1, c);
    }
  }

  lemma FirstCopy(cfg: Config, b: seq<State>, steps: seq<Step>, i: nat, c: Id)
    requires IsService(cfg, b, steps) && 0 < i < |b| && c !in b[i - 1].accepted && c in b[i].accepted
    ensures Copies(b[i], c) == 1 && !Midway(b[i], c) && Surplus(b, steps, i, c) == 0
  {
    RunSane(cfg, b, steps, i - 1);
    NoCopyBefore(cfg, b, steps, i - 1, c);
    Enqueued(cfg, b[i - 1], steps[i - 1], c);
  }

  lemma Enqueued(cfg: Config, s: State, st: Step, c: Id)
    requires Sane(s) && Enabled(s, st) && c !in s.accepted && c in Apply(cfg, s, st).accepted && Copies(s, c) == 0
    ensures Copies(Apply(cfg, s, st), c) == 1 && !Midway(Apply(cfg, s, st), c)
  {
    EnqueuedJob(cfg, s, st, c);
    StepOrigins(cfg, s, st);
    JobAdded(s, Apply(cfg, s, st), c, c);
  }

  lemma EnqueuedJob(cfg: Config, s: State, st: Step, c: Id)
    requires Enabled(s, st) && c !in s.accepted && c in Apply(cfg, s, st).accepted
    ensures var s' := Apply(cfg, s, st);
      && c !in s.jobs && s'.jobs.Keys == s.jobs.Keys + {c} && s'.dead == s.dead && s'.lock.Free? && OriginOf(s', c) == c
  {
    assert st.Enqueue? && st.id == c;
  }

  /** Every accepted submission always has a row, with its payload and
      destination, whatever crashes, fails or overlaps. */
  lemma NothingIsLost(cfg: Config, b: seq<State>, steps: seq<Step>, i: nat, j: nat, c: Id)
    requires IsService(cfg, b, steps) && i <= j < |b| && c in b[i].accepted
    ensures c in b[j].accepted && b[j].accepted[c] == b[i].accepted[c]
    ensures (exists id :: id in b[j].jobs && Submission(b[j].jobs[id].destination, b[j].jobs[id].payload) == b[i].accepted[c])
      || (exists id :: id in b[j].dead && Submission(b[j].dead[id].destination, b[j].dead[id].payload) == b[i].accepted[c])
  {
    AcceptedStays(cfg, b, steps, i, j, c);
    CopiesExact(cfg, b, steps, j, c);
    RunSane(cfg, b, steps, j);
    if Descendants(b[j], b[j].jobs.Keys, c) != {} {
      var id := Pick(Descendants(b[j], b[j].jobs.Keys, c));
      assert JobOk(b[j], id);
    } else {
      var id := Pick(Descendants(b[j], b[j].dead.Keys, c));
      assert EntryOk(b[j], id, b[j].dead[id]);
    }
  }

  lemma {:induction false} AcceptedStays(cfg: Config, b: seq<State>, steps: seq<Step>, i: nat, j: nat, c: Id)
    requires IsService(cfg, b, steps) && i <= j < |b| && c in b[i].accepted
    ensures c in b[j].accepted && b[j].accepted[c] == b[i].accepted[c]
    decreases j - i
  {
    if i < j {
      AcceptedStays(cfg, b, steps, i, j - 1, c);
      StepGrows(cfg, b[j - 1], steps[j - 1]);
    }
  }

  // ---------------------------------------------------------- when nothing slips

  ghost predicate IsRequest(s: State, q: nat, entry: Id) {
    q in s.requests && s.requests[q].entryId == entry
  }

  /** No two redeliver calls for one entry are in progress. */
  ghost predicate Alone(s: State) {
    forall q, r, entry | IsRequest(s, q, entry) && IsRequest(s, r, entry) :: q == r
  }

  /** No crash and no failing DELETE. */
  predicate Smooth(st: Step) {
    !st.Crash? && (st.DeleteJob? || st.DeleteEntry? ==> !st.fault)
  }

  ghost predicate EntriesThere(s: State) {
    forall q, entry | IsRequest(s, q, entry) :: entry in s.dead
  }

  lemma StepEntriesThere(cfg: Config, s: State, st: Step)
    requires Enabled(s, st) && Alone(s) && EntriesThere(s)
    ensures EntriesThere(Apply(cfg, s, st))
  {
    var s' := Apply(cfg, s, st);
    forall q, entry | IsRequest(s', q, entry) ensures entry in s'.dead {
      StepRequests(cfg, s, st, q);
      if !(st.Lookup? && st.q == q) {
        assert IsRequest(s, q, entry);
        if st.DeleteEntry? { assert IsRequest(s, s.lock.q, s.requests[s.lock.q].entryId); }
      }
    }
  }

  lemma {:induction false} RunEntriesThere(cfg: Config, b: seq<State>, steps: seq<Step>, i: nat)
    requires IsService(cfg, b, steps) && i < |b| && forall k | 0 <= k < |b| :: Alone(b[k])
    ensures EntriesThere(b[i])
  {
    if i > 0 {
      RunEntriesThere(cfg, b, steps, i - 1);
      StepEntriesThere(cfg, b[i - 1], steps[i - 1]);
    }
  }

  /** With no crash, no failing DELETE and no overlapping redeliver, the two
      tables together hold each accepted submission once. */
  lemma {:induction false} OneCopyEach(cfg: Config, b: seq<State>, steps: seq<Step>, i: nat, c: Id)
    requires IsService(cfg, b, steps) && i < |b| && c in b[i].accepted
    requires (forall k | 0 <= k < |b| :: Alone(b[k])) && (forall k | 0 <= k < |steps| :: Smooth(steps[k]))
    ensures Copies(b[i], c) == 1 + One(Midway(b[i], c))
  {
    CopiesExact(cfg, b, steps, i, c);
    NoSurplus(cfg, b, steps, i, c);
  }

  lemma {:induction false} NoSurplus(cfg: Config, b: seq<State>, steps: seq<Step>, i: nat, c: Id)
    requires IsService(cfg, b, steps) && i < |b|
    requires (forall k | 0 <= k < |b| :: Alone(b[k])) && (forall k | 0 <= k < |steps| :: Smooth(steps[k]))
    ensures Surplus(b, steps, i, c) == 0
  {
    if i > 0 {
      NoSurplus(cfg, b, steps, i - 1, c);
      RunEntriesThere(cfg, b, steps, i - 1);
      assert Smooth(steps[i - 1]);
      NoSlip(b[i - 1], steps[i - 1], c);
    }
  }

  lemma NoSlip(s: State, st: Step, c: Id)
    requires Enabled(s, st) && Smooth(st) && EntriesThere(s)
    ensures !Slips(s, st, c)
  {
    if st.DeleteEntry? { assert IsRequest(s, s.lock.q, s.requests[s.lock.q].entryId); }
  }

  /** Rows and the one that a move is about to delete, against what was accepted. */
  function Balance(s: State): int {
    |s.jobs| + |s.dead| - |s.accepted| - One(!s.lock.Free?)
  }

  /** A step of such a run changes the row count only by what it accepts. */
  lemma StepTotal(cfg: Config, s: State, st: Step)
    requires Sane(s) && Enabled(s, st) && EntriesThere(s) && Smooth(st)
    ensures Balance(Apply(cfg, s, st)) == Balance(s)
  {
    if st.DeleteEntry? {
      assert IsRequest(s, s.lock.q, s.requests[s.lock.q].entryId);
      EntryDeleted(cfg, s, st);
    } else if st.DeleteJob? {
      JobDeleted(cfg, s, st);
    } else {
      OtherTotal(cfg, s, st);
    }
  }

  lemma EntryDeleted(cfg: Config, s: State, st: Step)
    requires Enabled(s, st) && st == DeleteEntry(false) && s.requests[s.lock.q].entryId in s.dead
    ensures Balance(Apply(cfg, s, st)) == Balance(s)
  {
    var dead := Apply(cfg, s, st).dead;
    assert dead.Keys == s.dead.Keys - {s.requests[s.lock.q].entryId};
    assert |dead.Keys| == |s.dead.Keys| - 1;
  }

  lemma JobDeleted(cfg: Config, s: State, st: Step)
    requires Sane(s) && Enabled(s, st) && st == DeleteJob(false)
    ensures Balance(Apply(cfg, s, st)) == Balance(s)
  {
    var jobs := Apply(cfg, s, st).jobs;
    assert jobs.Keys == s.jobs.Keys - {s.todo[0].id};
    assert |jobs.Keys| == |s.jobs.Keys| - 1;
  }

  lemma OtherTotal(cfg: Config, s: State, st: Step)
    requires Sane(s) && Enabled(s, st) && !st.Crash? && !st.DeleteEntry? && !st.DeleteJob?
    ensures Balance(Apply(cfg, s, st)) == Balance(s)
  {
    if st.Record? {
      RecordTables(cfg, s, st);
      assert |Apply(cfg, s, st).jobs.Keys| == |s.jobs.Keys|;
    } else if st.InsertEntry? || st.InsertJob? || st.Enqueue? {
      InsertTotal(cfg, s, st);
    }
  }

  lemma InsertTotal(cfg: Config, s: State, st: Step)
    requires Enabled(s, st) && (st.InsertEntry? || st.InsertJob? || st.Enqueue?)
    ensures Balance(Apply(cfg, s, st)) == Balance(s)
  {
  }

  /** ... and their sizes add up to the number accepted. */
  lemma {:induction false} SizesAddUp(cfg: Config, b: seq<State>, steps: seq<Step>, i: nat)
    requires IsService(cfg, b, steps) && i < |b|
    requires (forall k | 0 <= k < |b| :: Alone(b[k])) && (forall k | 0 <= k < |steps| :: Smooth(steps[k]))
    ensures |b[i].jobs| + |b[i].dead| == |b[i].accepted| + One(!b[i].lock.Free?)
  {
    if i > 0 {
      SizesAddUp(cfg, b, steps, i - 1);
      SizesNext(cfg, b, steps, i - 1);
    }
  }

  lemma SizesNext(cfg: Config, b: seq<State>, steps: seq<Step>, i: nat)
    requires IsService(cfg, b, steps) && i < |steps| && Smooth(steps[i]) && forall k | 0 <= k < |b| :: Alone(b[k])
    requires |b[i].jobs| + |b[i].dead| == |b[i].accepted| + One(!b[i].lock.Free?)
    requires forall k | 0 <= k < |steps| :: Smooth(steps[k])
    ensures |b[i + 1].jobs| + |b[i + 1].dead| == |b[i + 1].accepted| + One(!b[i + 1].lock.Free?)
  {
    RunSane(cfg, b, steps, i);
    RunEntriesThere(cfg, b, steps, i);
    StepTotal(cfg, b[i], steps[i]);
  }

  /** A crash leaves the two tables, and nothing that the worker or a call held. */
  lemma CrashForgets(cfg: Config, s: State)
    ensures Enabled(s, Crash)
    ensures var s' := Apply(cfg, s, Crash);
      && s'.jobs == s.jobs && s'.dead == s.dead && s'.clock == s.clock && s'.accepted == s.accepted
      && s'.lock.Free? && s'.todo == [] && s'.verdict == None && s'.requests == map[]
  {
  }

  // --------------------------------------------------- two redelivers that overlap

  ghost predicate SmoothRun(cfg: Config, b: seq<State>, steps: seq<Step>) {
    IsService(cfg, b, steps) && forall i | 0 <= i < |steps| :: Smooth(steps[i])
  }

  lemma Go(cfg: Config, b: seq<State>, steps: seq<Step>, st: Step) returns (b': seq<State>, steps': seq<Step>)
    requires SmoothRun(cfg, b, steps) && Enabled(b[|b| - 1], st) && Smooth(st)
    ensures SmoothRun(cfg, b', steps') && b'[|b'| - 1] == Apply(cfg, b[|b| - 1], st)
  {
    b', steps' := Append(cfg, b, steps, st);
  }

  const CONTENT := Submission("to", "body")
  const REQUEST := Request(2, Entry(1, "to", "body", 0, "blocked: no", 0))

  function History(blocked: bool): map<Id, Ledger> {
    map[1 := Ledger(1, 3, [], 0, blocked)]
  }

  /** Submission 1 is fetched and refused. */
  lemma Fetched(cfg: Config) returns (b: seq<State>, steps: seq<Step>)
    ensures SmoothRun(cfg, b, steps)
    ensures var job := FreshJob("to", "body", 3, 0);
      b[|b| - 1] == State(map[1 := job], map[], Free, [Held(1, job)], Some(Blocked("no")), map[], 0, History(true), map[1 := CONTENT])
  {
    var job := FreshJob("to", "body", 3, 0);
    b, steps := Go(cfg, [Init()], [], Enqueue(1, "to", "body", 3));
    OnlyOne(DueTimes(map[1 := job], 0), FETCH_LIMIT, 1);
    assert b[|b| - 1] == State(map[1 := job], map[], Free, [], None, map[], 0, History(false), map[1 := CONTENT]);
    assert Batch(map[1 := job], [1]) == [Held(1, job)];
    b, steps := Go(cfg, b, steps, Fetch([1]));
    b, steps := Go(cfg, b, steps, Judge(Blocked("no")));
  }

  /** ... and moved to entry 2. */
  lemma Refused(cfg: Config) returns (b: seq<State>, steps: seq<Step>)
    ensures SmoothRun(cfg, b, steps)
    ensures b[|b| - 1] == State(map[], map[2 := REQUEST.entry], Free, [], None, map[], 0,
                                History(true)[2 := Ledger(1, 0, [], 0, false)], map[1 := CONTENT])
  {
    b, steps := Fetched(cfg);
    assert ErrorText(Blocked("no")) == "blocked: no";
    b, steps := Go(cfg, b, steps, InsertEntry(2, false));
    assert b[|b| - 1].jobs - {1} == map[];
    b, steps := Go(cfg, b, steps, DeleteJob(false));
  }

  /** A call that has found entry 2 inserts its job and deletes the entry, there or not. */
  lemma OneRedelivers(cfg: Config, b0: seq<State>, steps0: seq<Step>, q: nat, id: Id) returns (b: seq<State>, steps: seq<Step>)
    requires SmoothRun(cfg, b0, steps0)
    requires var s := b0[|b0| - 1];
      s.lock.Free? && q in s.requests && s.requests[q] == REQUEST && Unused(s, id) && 2 in s.ledger && s.ledger[2].origin == 1
    ensures SmoothRun(cfg, b, steps)
    ensures var s := b0[|b0| - 1];
      b[|b| - 1] == s.(jobs := s.jobs[id := FreshJob("to", "body", 3, s.clock)], dead := s.dead - {2},
                       ledger := s.ledger[id := Ledger(1, 3, [], 0, false)], requests := s.requests - {q})
  {
    b, steps := Go(cfg, b0, steps0, InsertJob(q, id, 3, false));
    b, steps := Go(cfg, b, steps, DeleteEntry(false));
  }

  /** Without a crash or a failing statement, two overlapping redelivers turn
      one accepted submission into two jobs: both find entry 2 before either
      has replaced it. */
  lemma OverlapDuplicates(cfg: Config) returns (b: seq<State>, steps: seq<Step>)
    ensures IsService(cfg, b, steps) && (forall i | 0 <= i < |steps| :: Smooth(steps[i]))
    ensures var s := b[|b| - 1]; s.accepted.Keys == {1} && s.lock.Free? && Copies(s, 1) == 2
  {
    b, steps := Refused(cfg);
    b, steps := Go(cfg, b, steps, Lookup(0, 2));
    b, steps := Go(cfg, b, steps, Lookup(1, 2));
    b, steps := OneRedelivers(cfg, b, steps, 0, 3);
    b, steps := OneRedelivers(cfg, b, steps, 1, 4);
    TwoCopies(b[|b| - 1]);
  }

  lemma TwoCopies(s: State)
    requires s.jobs.Keys == {3, 4} && s.dead == map[] && OriginOf(s, 3) == OriginOf(s, 4) == 1
    ensures Copies(s, 1) == 2
  {
    assert Descendants(s, s.jobs.Keys, 1) == {3, 4} && Descendants(s, s.dead.Keys, 1) == {};
  }
}
