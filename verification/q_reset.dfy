/** q: which rows in flight a starting worker takes back. */
module QReset {
  import opened Common
  import opened QStore
  import opened QProtocol
  import opened QDue

  /** A row is only put in flight by the claim that stamps it. */
  lemma StepInFlight(cfg: Config, s: State, st: Step, id: Id)
    requires Sane(s) && Enabled(cfg, s, st) && id in Apply(cfg, s, st).rows && Apply(cfg, s, st).rows[id].status == InFlight
    ensures (Wins(s, st, id) && Apply(cfg, s, st).rows[id].updatedAt == s.clock) || (id in s.rows && s.rows[id] == Apply(cfg, s, st).rows[id])
  {
  }

  /** The claim that a row in flight goes back to. */
  lemma {:induction false} LastClaim(cfg: Config, workers: nat, b: seq<State>, steps: seq<Step>, j: nat, id: Id) returns (i: nat)
    requires IsService(cfg, workers, b, steps) && j < |b| && id in b[j].rows && b[j].rows[id].status == InFlight
    ensures i < j && Wins(b[i], steps[i], id) && b[i].clock == b[j].rows[id].updatedAt
    ensures forall k | i < k <= j :: id in b[k].rows && b[k].rows[id] == b[j].rows[id]
    decreases j
  {
    RunSane(cfg, workers, b, steps, j - 1);
    StepInFlight(cfg, b[j - 1], steps[j - 1], id);
    if Wins(b[j - 1], steps[j - 1], id) {
      i := j - 1;
    } else {
      i := LastClaim(cfg, workers, b, steps, j - 1, id);
    }
  }

  /** A reset by a starting worker, if it finds any row: one that is in flight
      becomes pending and due exactly when its claim is `staleMs` old or more,
      and otherwise stays as it is. */
  lemma TakenBackIff(cfg: Config, workers: nat, b: seq<State>, steps: seq<Step>, j: nat, id: Id) returns (i: nat)
    requires IsService(cfg, workers, b, steps) && j < |steps| && steps[j].Startup? && steps[j].reset != {}
    requires id in b[j].rows && b[j].rows[id].status == InFlight
    ensures i < j && Wins(b[i], steps[i], id) && forall k | i < k <= j :: id in b[k].rows && b[k].rows[id] == b[j].rows[id]
    ensures var r, now := b[j].rows[id], b[j].clock;
      b[j + 1].rows[id] == if now - b[i].clock >= cfg.staleMs then r.(status := Pending, nextRetryAt := now, updatedAt := now) else r
  {
    i := LastClaim(cfg, workers, b, steps, j, id);
    ResetRow(cfg, b[j], steps[j], id);
  }

  lemma ResetRow(cfg: Config, s: State, st: Step, id: Id)
    requires Enabled(cfg, s, st) && st.Startup? && id in s.rows
    ensures var r, r' := s.rows[id], Apply(cfg, s, st).rows[id];
      r' == if st.reset != {} && r.status == InFlight && r.updatedAt <= s.clock - cfg.staleMs
            then r.(status := Pending, nextRetryAt := s.clock, updatedAt := s.clock) else r
  {
  }

  /** Every write of a row stamps it. */
  lemma StepStamps(cfg: Config, s: State, st: Step, id: Id)
    requires Sane(s) && Enabled(cfg, s, st) && id in s.rows
    ensures id in Apply(cfg, s, st).rows && s.clock <= Apply(cfg, s, st).clock
    ensures Apply(cfg, s, st).rows[id] == s.rows[id] || Apply(cfg, s, st).rows[id].updatedAt == s.clock
  {
    StepKeeps(cfg, s, st);
    if st.Record? { RecordStamps(cfg, s, st, id); }
  }

  lemma RecordStamps(cfg: Config, s: State, st: Step, id: Id)
    requires Enabled(cfg, s, st) && id in s.rows && st.Record?
    ensures id in Apply(cfg, s, st).rows
    ensures Apply(cfg, s, st).rows[id] == s.rows[id] || Apply(cfg, s, st).rows[id].updatedAt == s.clock
  {
  }

  lemma {:induction false} StampedSince(cfg: Config, workers: nat, b: seq<State>, steps: seq<Step>, i: nat, j: nat, id: Id)
    requires IsService(cfg, workers, b, steps) && i < j < |b| && Wins(b[i], steps[i], id)
    ensures id in b[j].rows && b[j].rows[id].updatedAt >= b[i].clock && b[j].clock >= b[i].clock
    decreases j
  {
    RunSane(cfg, workers, b, steps, j - 1);
    if i < j - 1 {
      StampedSince(cfg, workers, b, steps, i, j - 1, id);
      StepStamps(cfg, b[j - 1], steps[j - 1], id);
    }
  }

  /** Over every run: a row that was claimed less than `staleMs` ago, whatever
      became of it since, is left alone by every starting worker. */
  lemma FreshClaimSurvives(cfg: Config, workers: nat, b: seq<State>, steps: seq<Step>, i: nat, j: nat, id: Id)
    requires IsService(cfg, workers, b, steps) && i < j < |steps| && Wins(b[i], steps[i], id)
    requires steps[j].Startup? && b[j].clock < b[i].clock + cfg.staleMs
    ensures id in b[j].rows && id in b[j + 1].rows && b[j + 1].rows[id] == b[j].rows[id]
  {
    StampedSince(cfg, workers, b, steps, i, j, id);
    ResetRow(cfg, b[j], steps[j], id);
  }
}
