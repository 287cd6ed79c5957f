/** The four services decide alike: what they make of the same responses. */
module Agreement {
  import opened Common
  import opened Answers
  import Q = QProtocol
  import QClassify
  import QStore
  import QLedgers
  import K = KProtocol
  import KProgress
  import G = GProtocol
  import GLeases
  import GProgress
  import D = DProtocol
  import DProgress

  // ----------------------------------------------------- what the policy says

  /** How many leading failures a script of responses has. */
  function Failures(script: seq<bool>): (n: nat)
    ensures n <= |script|
  {
    if script == [] || script[0] then 0 else 1 + Failures(script[1..])
  }

  /** The sends a script is worth: up to the first 2xx, at most `max`. */
  function SendsFor(script: seq<bool>, max: nat): nat {
    Min(Failures(script) + 1, max)
  }

  predicate Accepts(script: seq<bool>, max: nat) {
    Failures(script) < max
  }

  lemma {:induction false} FailuresFirst(script: seq<bool>, answers: seq<bool>, last: bool)
    requires answers <= script && FailedButLast(answers, last)
    ensures last ==> Failures(script) == |answers| - 1
    ensures !last ==> Failures(script) >= |answers|
    decreases |answers|
  {
    assert forall i | 0 <= i < |answers| - 1 :: !answers[..|answers| - 1][i] && answers[i] == script[i];
    assert script[|answers| - 1] == last;
    if |answers| > 1 {
      var rest := answers[1..];
      assert rest <= script[1..];
      assert rest[|rest| - 1] == last;
      assert rest[..|rest| - 1] == answers[..|answers| - 1][1..];
      FailuresFirst(script[1..], rest, last);
    }
  }

  /** Ending on a 2xx, or on the `max`-th failure, is what the script decides. */
  lemma Decided(script: seq<bool>, answers: seq<bool>, max: nat, delivered: bool)
    requires answers <= script && 1 <= max <= |script| && 1 <= |answers| <= max
    requires FailedButLast(answers, delivered) && (!delivered ==> |answers| == max)
    ensures |answers| == SendsFor(script, max) && delivered == Accepts(script, max)
  {
    FailuresFirst(script, answers, delivered);
  }

  /** What the script holds up to the last send. */
  lemma {:induction false} FailuresAreFirst(script: seq<bool>, k: nat)
    requires k <= Failures(script)
    ensures forall i | 0 <= i < k :: !script[i]
    ensures k == Failures(script) && k < |script| ==> script[k]
    decreases k
  {
    if k > 0 {
      FailuresAreFirst(script[1..], k - 1);
      assert forall i | 0 < i < k :: script[i] == script[1..][i - 1];
    }
  }

  lemma Prefix(script: seq<bool>, max: nat)
    requires 1 <= max <= |script|
    ensures var n := SendsFor(script, max);
      1 <= n <= |script| && (forall i | 0 <= i < n - 1 :: !script[i]) && script[n - 1] == Accepts(script, max)
  {
    var n := SendsFor(script, max);
    FailuresAreFirst(script, n - 1);
    if Failures(script) >= max { FailuresAreFirst(script, max); }
  }

  lemma OnlyFailures(answers: seq<bool>)
    requires AllFailed(answers) && answers != []
    ensures FailedButLast(answers, false)
  {
  }

  // --------------------------------------------------------- service by service

  function Heard(answers: seq<QClassify.Outcome>): seq<bool> {
    seq(|answers|, i requires 0 <= i < |answers| => answers[i].Delivered?)
  }

  /** q, one worker, every outcome recorded and no permanent failure. */
  ghost predicate QDone(cfg: Q.Config, b: seq<Q.State>, steps: seq<Q.Step>, i: nat, id: Id, script: seq<bool>) {
    && Q.IsService(cfg, 1, b, steps) && i < |b| && id in b[i].rows && id in b[i].ledger
    && (var l := b[i].ledger[id];
        && l.unrecorded == 0 && Heard(l.answers) <= script
        && (forall k | 0 <= k < |l.answers| :: !l.answers[k].Permanent?)
        && (b[i].rows[id].status == QStore.Status.Delivered || (b[i].rows[id].status == QStore.Status.DeadLetter && l.bySend)))
  }

  lemma QOutcome(cfg: Q.Config, b: seq<Q.State>, steps: seq<Q.Step>, i: nat, id: Id, script: seq<bool>)
    requires QDone(cfg, b, steps, i, id, script) && 1 <= b[i].rows[id].maxAttempts <= |script|
    ensures var r, n := b[i].rows[id], SendsFor(script, b[i].rows[id].maxAttempts);
      && |b[i].ledger[id].answers| == n
      && (r.status == QStore.Status.Delivered <==> Accepts(script, r.maxAttempts))
      && r.attempts == if r.status == QStore.Status.Delivered then n else n - 1
  {
    QLedgers.RunOnCourse(cfg, b, steps, i, id);
    QLedgers.RunSolo(cfg, b, steps, i, id);
    QLedgers.NothingWaiting(b[i], id);
    var r, answers := b[i].rows[id], b[i].ledger[id].answers;
    var heard, n, delivered := Heard(answers), |answers|, r.status == QStore.Status.Delivered;
    assert forall k | 0 <= k < n - 1 :: answers[..n - 1][k] == answers[k];
    assert heard[n - 1] == delivered && AllFailed(heard[..n - 1]);
    Decided(script, heard, r.maxAttempts, delivered);
  }

  /** k, any number of workers, crashes and lost writes. */
  ghost predicate KDone(cfg: K.Config, workers: nat, b: seq<K.State>, steps: seq<K.Step>, i: nat, id: Id, script: seq<bool>) {
    && K.IsService(cfg, workers, b, steps) && i < |b| && id in b[i].jobs && id in b[i].answers
    && b[i].answers[id] <= script && (b[i].jobs[id].status == K.Delivered || b[i].jobs[id].status == K.Dead)
  }

  lemma KOutcome(cfg: K.Config, workers: nat, b: seq<K.State>, steps: seq<K.Step>, i: nat, id: Id, script: seq<bool>)
    requires KDone(cfg, workers, b, steps, i, id, script) && 1 <= b[i].jobs[id].maxAttempts <= |script|
    ensures var job, n := b[i].jobs[id], SendsFor(script, b[i].jobs[id].maxAttempts);
      && |b[i].answers[id]| == n
      && (job.status == K.Delivered <==> Accepts(script, job.maxAttempts))
      && job.attempts == n
  {
    KProgress.SendsAreBounded(cfg, workers, b, steps, i, id);
    var job, a := b[i].jobs[id], b[i].answers[id];
    if job.status == K.Dead { OnlyFailures(a); }
    Decided(script, a, job.maxAttempts, job.status == K.Delivered);
  }

  /** g, leases held and every outcome recorded. */
  ghost predicate GDone(cfg: G.Config, b: seq<G.State>, steps: seq<G.Step>, i: nat, id: Id, script: seq<bool>) {
    && G.IsService(cfg, b, steps) && i < |b| && GLeases.AllTimely(cfg, b) && id in b[i].rows && id in b[i].ledger
    && b[i].ledger[id].lost == 0 && b[i].ledger[id].answers <= script && b[i].rows[id].Terminal()
  }

  lemma GOutcome(cfg: G.Config, b: seq<G.State>, steps: seq<G.Step>, i: nat, id: Id, script: seq<bool>)
    requires GDone(cfg, b, steps, i, id, script) && 1 <= b[i].rows[id].maxAttempts <= |script|
    ensures var r, n := b[i].rows[id], SendsFor(script, b[i].rows[id].maxAttempts);
      && |b[i].ledger[id].answers| == n
      && (r.status == G.Delivered <==> Accepts(script, r.maxAttempts))
      && r.attempts == n
  {
    GProgress.RunOnCourse(cfg, b, steps, i, id);
    var r, a := b[i].rows[id], b[i].ledger[id].answers;
    assert G.RowOk(r, b[i].ledger[id].acknowledged);
    if r.status == G.DeadLettered { OnlyFailures(a); }
    Decided(script, a, r.maxAttempts, r.status == G.Delivered);
  }

  /** d, every outcome recorded and the destination never refused: the job is
      delivered, or an entry has taken its place. */
  ghost predicate DDone(cfg: D.Config, b: seq<D.State>, steps: seq<D.Step>, i: nat, id: Id, script: seq<bool>) {
    && D.IsService(cfg, b, steps) && i < |b| && id in b[i].ledger
    && (var l := b[i].ledger[id]; l.lost == 0 && !l.blocked && l.answers <= script)
    && (DDelivered(b[i], id) || exists e :: DProgress.EntryFrom(b[i], e, id))
  }

  predicate DDelivered(s: D.State, id: Id) {
    id in s.jobs && s.jobs[id].status == D.Delivered
  }

  lemma DOutcome(cfg: D.Config, b: seq<D.State>, steps: seq<D.Step>, i: nat, id: Id, script: seq<bool>)
    requires DDone(cfg, b, steps, i, id, script) && 1 <= b[i].ledger[id].maxAttempts <= |script|
    ensures var s, n := b[i], SendsFor(script, b[i].ledger[id].maxAttempts);
      && |s.ledger[id].answers| == n
      && (DDelivered(s, id) <==> Accepts(script, s.ledger[id].maxAttempts))
      && (DDelivered(s, id) ==> s.jobs[id].attempts == n - 1)
      && (forall e | DProgress.EntryFrom(s, e, id) :: s.dead[e].attempts == n)
  {
    DProgress.RunOnCourse(cfg, b, steps, i, id);
    var s := b[i];
    var l := s.ledger[id];
    if DDelivered(s, id) {
      assert D.JobOk(s, id);
      Decided(script, l.answers, l.maxAttempts, true);
      assert forall e :: DProgress.EntryFrom(s, e, id) ==> DProgress.EntryOnCourse(s, e, id);
    } else {
      var e :| DProgress.EntryFrom(s, e, id);
      assert DProgress.EntryOnCourse(s, e, id);
      OnlyFailures(l.answers);
      Decided(script, l.answers, l.maxAttempts, false);
    }
  }

  /** Same limit, same responses: the same number of sends, the same verdict,
      and the `attempts` column n/n-1 in q, n/n in k, n/n in g, n-1/n in d. */
  lemma FourAgree(
      qc: Q.Config, qb: seq<Q.State>, qs: seq<Q.Step>, kc: K.Config, workers: nat, kb: seq<K.State>, ks: seq<K.Step>,
      gc: G.Config, gb: seq<G.State>, gs: seq<G.Step>, dc: D.Config, db: seq<D.State>, ds: seq<D.Step>,
      qi: nat, ki: nat, gi: nat, di: nat, id: Id, script: seq<bool>, max: nat)
    requires 1 <= max <= |script|
    requires QDone(qc, qb, qs, qi, id, script) && qb[qi].rows[id].maxAttempts == max
    requires KDone(kc, workers, kb, ks, ki, id, script) && kb[ki].jobs[id].maxAttempts == max
    requires GDone(gc, gb, gs, gi, id, script) && gb[gi].rows[id].maxAttempts == max
    requires DDone(dc, db, ds, di, id, script) && db[di].ledger[id].maxAttempts == max
    ensures |qb[qi].ledger[id].answers| == |kb[ki].answers[id]| == |gb[gi].ledger[id].answers| == |db[di].ledger[id].answers| == SendsFor(script, max)
    ensures var ok := Accepts(script, max);
      && (qb[qi].rows[id].status == QStore.Status.Delivered <==> ok) && (kb[ki].jobs[id].status == K.Delivered <==> ok)
      && (gb[gi].rows[id].status == G.Delivered <==> ok) && (DDelivered(db[di], id) <==> ok)
    ensures var n, ok := SendsFor(script, max), Accepts(script, max);
      && qb[qi].rows[id].attempts == (if ok then n else n - 1)
      && kb[ki].jobs[id].attempts == n && gb[gi].rows[id].attempts == n
      && (if ok then db[di].jobs[id].attempts == n - 1 else forall e | DProgress.EntryFrom(db[di], e, id) :: db[di].dead[e].attempts == n)
  {
    QOutcome(qc, qb, qs, qi, id, script);
    KOutcome(kc, workers, kb, ks, ki, id, script);
    GOutcome(gc, gb, gs, gi, id, script);
    DOutcome(dc, db, ds, di, id, script);
  }

  // --------------------------------------------------- where q parts from the rest

  /** q stops at the first response that is not worth a retry. */
  function Retries(script: seq<QClassify.Outcome>): (n: nat)
    ensures n <= |script|
  {
    if script == [] || !script[0].Retryable? then 0 else 1 + Retries(script[1..])
  }

  function QSendsFor(script: seq<QClassify.Outcome>, max: nat): nat {
    Min(Retries(script) + 1, max)
  }

  predicate QAccepts(script: seq<QClassify.Outcome>, max: nat) {
    Retries(script) < max && Retries(script) < |script| && script[Retries(script)].Delivered?
  }

  lemma {:induction false} RetriesVsFailures(script: seq<QClassify.Outcome>)
    ensures Retries(script) <= Failures(Heard(script))
    ensures Retries(script) < |script| && script[Retries(script)].Delivered? ==> Failures(Heard(script)) == Retries(script)
    ensures Retries(script) < |script| && script[Retries(script)].Permanent? ==> Failures(Heard(script)) > Retries(script)
    ensures forall k | 0 <= k < Retries(script) :: script[k].Retryable?
    ensures Retries(script) < |script| ==> !script[Retries(script)].Retryable?
    decreases |script|
  {
    if script != [] && script[0].Retryable? {
      assert Heard(script)[1..] == Heard(script[1..]);
      RetriesVsFailures(script[1..]);
      assert forall k | 0 < k < Retries(script) :: script[k] == script[1..][k - 1];
    } else if script != [] && script[0].Permanent? {
      assert !Heard(script)[0];
    }
  }

  /** q agrees with the other three on a script of responses exactly when none
      of the responses that the others would retry after is permanent to q. */
  lemma QAgreesExactly(script: seq<QClassify.Outcome>, max: nat)
    requires 1 <= max <= |script|
    ensures QSendsFor(script, max) == SendsFor(Heard(script), max) && QAccepts(script, max) == Accepts(Heard(script), max)
      <==> forall k | 0 <= k < SendsFor(Heard(script), max) - 1 :: !script[k].Permanent?
  {
    RetriesVsFailures(script);
    var r, n := Retries(script), SendsFor(Heard(script), max);
    if r < n - 1 {
      assert script[r].Permanent?;
    }
  }

  /** A response as a service sees it; `transport` when there was none. */
  datatype Response = Response(status: nat, transport: Option<string>)
  {
    predicate Success() {
      transport == None && 200 <= status <= 299
    }

    /** What q retries after: no response, 429 and 5xx. */
    predicate Transient() {
      transport.Some? || status == 429 || 500 <= status <= 599
    }
  }

  function Classified(responses: seq<Response>): seq<QClassify.Outcome> {
    seq(|responses|, i requires 0 <= i < |responses| => QClassify.Classify(responses[i].status, responses[i].transport))
  }

  /** The same on raw responses: k, g and d look only for a 2xx. */
  lemma QAgreesOnResponses(responses: seq<Response>, max: nat)
    requires 1 <= max <= |responses|
    ensures var script := seq(|responses|, i requires 0 <= i < |responses| => responses[i].Success());
      QSendsFor(Classified(responses), max) == SendsFor(script, max) && QAccepts(Classified(responses), max) == Accepts(script, max)
      <==> forall k | 0 <= k < SendsFor(script, max) - 1 :: responses[k].Success() || responses[k].Transient()
  {
    var script := seq(|responses|, i requires 0 <= i < |responses| => responses[i].Success());
    assert Heard(Classified(responses)) == script;
    QAgreesExactly(Classified(responses), max);
    assert forall k | 0 <= k < |responses| :: Classified(responses)[k].Permanent? <==> !responses[k].Success() && !responses[k].Transient();
  }
}
