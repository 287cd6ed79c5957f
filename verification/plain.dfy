/** Runs without a crash, a failing write or a refused destination: what the
    four services' answers say then follows from the steps alone. */
module Plain {
  import opened Common
  import opened Agreement
  import Q = QProtocol
  import QStore
  import QLedgers
  import K = KProtocol
  import G = GProtocol
  import GLeases
  import D = DProtocol
  import DProgress

  // ------------------------------------------------------------------------- q

  /** No crash, and the row is neither turned away by validation nor written in vain. */
  predicate QPlain(st: Q.Step, id: Id) {
    && !st.Crash?
    && (st.Reject? ==> st.id != id)
    && (st.Record? && st.id == id ==> !st.fault)
  }

  ghost predicate QTold(s: Q.State, id: Id) {
    id in s.rows && id in s.ledger ==>
      s.ledger[id].unrecorded == 0 && (s.rows[id].status == QStore.Status.DeadLetter ==> s.ledger[id].bySend)
  }

  lemma QStepTold(cfg: Q.Config, s: Q.State, st: Q.Step, id: Id)
    requires Q.Sane(s) && Q.Enabled(cfg, s, st) && QPlain(st, id) && QTold(s, id)
    ensures QTold(Q.Apply(cfg, s, st), id)
  {
  }

  lemma {:induction false} QAllTold(cfg: Q.Config, workers: nat, b: seq<Q.State>, steps: seq<Q.Step>, i: nat, id: Id)
    requires Q.IsService(cfg, workers, b, steps) && i < |b| && forall k | 0 <= k < |steps| :: QPlain(steps[k], id)
    ensures QTold(b[i], id)
  {
    if i > 0 {
      QAllTold(cfg, workers, b, steps, i - 1, id);
      Q.RunSane(cfg, workers, b, steps, i - 1);
      QStepTold(cfg, b[i - 1], steps[i - 1], id);
    }
  }

  // ------------------------------------------------------------------------- g

  predicate GPlain(st: G.Step) {
    !st.Crash? && (st.Finalize? ==> !st.fault)
  }

  ghost predicate GTold(s: G.State) {
    forall id | id in s.ledger :: s.ledger[id].lost == 0
  }

  lemma GStepTold(cfg: G.Config, s: G.State, st: G.Step)
    requires G.Enabled(cfg, s, st) && GPlain(st) && GTold(s)
    ensures GTold(G.Apply(cfg, s, st))
  {
  }

  lemma {:induction false} GAllTold(cfg: G.Config, b: seq<G.State>, steps: seq<G.Step>, i: nat)
    requires G.IsService(cfg, b, steps) && i < |b| && forall k | 0 <= k < |steps| :: GPlain(steps[k])
    ensures GTold(b[i])
  {
    if i > 0 {
      GAllTold(cfg, b, steps, i - 1);
      GStepTold(cfg, b[i - 1], steps[i - 1]);
    }
  }

  // ------------------------------------------------------------------------- d

  predicate DPlain(st: D.Step) {
    && !st.Crash?
    && (st.Record? || st.InsertEntry? || st.DeleteJob? ==> !st.fault)
    && (st.Judge? ==> !st.outcome.Blocked?)
  }

  ghost predicate DTold(s: D.State) {
    forall id | id in s.ledger :: s.ledger[id].lost == 0 && !s.ledger[id].blocked
  }

  lemma DStepTold(cfg: D.Config, s: D.State, st: D.Step)
    requires D.Enabled(s, st) && DPlain(st) && DTold(s)
    ensures DTold(D.Apply(cfg, s, st))
  {
  }

  lemma {:induction false} DAllTold(cfg: D.Config, b: seq<D.State>, steps: seq<D.Step>, i: nat)
    requires D.IsService(cfg, b, steps) && i < |b| && forall k | 0 <= k < |steps| :: DPlain(steps[k])
    ensures DTold(b[i])
  {
    if i > 0 {
      DAllTold(cfg, b, steps, i - 1);
      DStepTold(cfg, b[i - 1], steps[i - 1]);
    }
  }

  // ------------------------------------------------------------------- the four

  /** q, one worker: the row is done and heard the script. */
  ghost predicate QPlayed(cfg: Q.Config, b: seq<Q.State>, steps: seq<Q.Step>, i: nat, id: Id, script: seq<bool>) {
    && Q.IsService(cfg, 1, b, steps) && (forall k | 0 <= k < |steps| :: QPlain(steps[k], id))
    && i < |b| && id in b[i].rows && id in b[i].ledger && b[i].rows[id].Terminal()
    && Heard(b[i].ledger[id].answers) <= script
    && forall k | 0 <= k < |b[i].ledger[id].answers| :: !b[i].ledger[id].answers[k].Permanent?
  }

  /** g: so did its row, and leases held. */
  ghost predicate GPlayed(cfg: G.Config, b: seq<G.State>, steps: seq<G.Step>, i: nat, id: Id, script: seq<bool>) {
    && G.IsService(cfg, b, steps) && GLeases.AllTimely(cfg, b) && (forall k | 0 <= k < |steps| :: GPlain(steps[k]))
    && i < |b| && id in b[i].rows && id in b[i].ledger && b[i].rows[id].Terminal() && b[i].ledger[id].answers <= script
  }

  /** d: so did its job, which is delivered or has an entry. */
  ghost predicate DPlayed(cfg: D.Config, b: seq<D.State>, steps: seq<D.Step>, i: nat, id: Id, script: seq<bool>) {
    && D.IsService(cfg, b, steps) && (forall k | 0 <= k < |steps| :: DPlain(steps[k]))
    && i < |b| && id in b[i].ledger && b[i].ledger[id].answers <= script
    && (DDelivered(b[i], id) || exists e :: DProgress.EntryFrom(b[i], e, id))
  }

  lemma PlayedIsDone(
      qc: Q.Config, qb: seq<Q.State>, qs: seq<Q.Step>, gc: G.Config, gb: seq<G.State>, gs: seq<G.Step>,
      dc: D.Config, db: seq<D.State>, ds: seq<D.Step>, qi: nat, gi: nat, di: nat, id: Id, script: seq<bool>)
    requires QPlayed(qc, qb, qs, qi, id, script) && GPlayed(gc, gb, gs, gi, id, script) && DPlayed(dc, db, ds, di, id, script)
    ensures QDone(qc, qb, qs, qi, id, script) && GDone(gc, gb, gs, gi, id, script) && DDone(dc, db, ds, di, id, script)
  {
    QAllTold(qc, 1, qb, qs, qi, id);
    GAllTold(gc, gb, gs, gi);
    DAllTold(dc, db, ds, di);
  }

  /** In runs of the four services without crashes, failing writes and refused
      destinations (k's may have them), a script with no permanent outcome costs
      each the same sends and gets the same verdict. */
  lemma PlainRunsAgree(
      qc: Q.Config, qb: seq<Q.State>, qs: seq<Q.Step>, kc: K.Config, workers: nat, kb: seq<K.State>, ks: seq<K.Step>,
      gc: G.Config, gb: seq<G.State>, gs: seq<G.Step>, dc: D.Config, db: seq<D.State>, ds: seq<D.Step>,
      qi: nat, ki: nat, gi: nat, di: nat, id: Id, script: seq<bool>, max: nat)
    requires 1 <= max <= |script|
    requires QPlayed(qc, qb, qs, qi, id, script) && qb[qi].rows[id].maxAttempts == max
    requires KDone(kc, workers, kb, ks, ki, id, script) && kb[ki].jobs[id].maxAttempts == max
    requires GPlayed(gc, gb, gs, gi, id, script) && gb[gi].rows[id].maxAttempts == max
    requires DPlayed(dc, db, ds, di, id, script) && db[di].ledger[id].maxAttempts == max
    ensures |qb[qi].ledger[id].answers| == |kb[ki].answers[id]| == |gb[gi].ledger[id].answers| == |db[di].ledger[id].answers| == SendsFor(script, max)
    ensures var ok := Accepts(script, max);
      && (qb[qi].rows[id].status == QStore.Status.Delivered <==> ok) && (kb[ki].jobs[id].status == K.Delivered <==> ok)
      && (gb[gi].rows[id].status == G.Delivered <==> ok) && (DDelivered(db[di], id) <==> ok)
  {
    PlayedIsDone(qc, qb, qs, gc, gb, gs, dc, db, ds, qi, gi, di, id, script);
    FourAgree(qc, qb, qs, kc, workers, kb, ks, gc, gb, gs, dc, db, ds, qi, ki, gi, di, id, script, max);
  }
}
