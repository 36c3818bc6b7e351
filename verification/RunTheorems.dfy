/** The promises of the run store, for every interleaving of its transactions. */
module RunTheorems {
  import opened Wrappers
  import opened RunTables
  import opened RunInvariants

  /** A history of the store from its creation. */
  ghost predicate History(dbs: seq<Db>, steps: seq<Step>) {
    Trace(dbs, steps) && dbs[0] == EMPTY_DB
  }

  lemma ReachableInv(dbs: seq<Db>, steps: seq<Step>, i: nat)
    requires History(dbs, steps) && i < |dbs|
    ensures Inv(dbs[i])
  {
    forall p ensures Replay(EMPTY_DB.events, p) == Tables(EMPTY_DB, p) {}
    assert Inv(EMPTY_DB);
    TraceKeepsInv(dbs, steps);
  }

  /** Folding any project's events gives every run's status and cancel flag, and the slot. */
  lemma EventLogReplay(dbs: seq<Db>, steps: seq<Step>, i: nat, p: string)
    requires History(dbs, steps) && i < |dbs|
    ensures
      var view := Replay(dbs[i].events, p);
      && view.active == Slot(dbs[i], p)
      && (forall r :: r in view.runs <==> r in dbs[i].runs && dbs[i].runs[r].project == p)
      && (forall r :: r in view.runs ==> view.runs[r] == (dbs[i].runs[r].status, dbs[i].runs[r].cancelRequested))
  {
    ReachableInv(dbs, steps, i);
  }

  lemma MutualExclusion(dbs: seq<Db>, steps: seq<Step>, i: nat, p: string, q: string, r: string)
    requires History(dbs, steps) && i < |dbs|
    ensures Slot(dbs[i], p) == Some(r) <==> RunsIn(dbs[i], p, r)
    ensures RunsIn(dbs[i], p, q) && RunsIn(dbs[i], p, r) ==> q == r
    ensures r in dbs[i].runs ==> (dbs[i].runs[r].lease.Some? <==> dbs[i].runs[r].status == Running)
    ensures Starts(dbs[i].events, r) <= 1
  {
    ReachableInv(dbs, steps, i);
    assert RowOk(dbs[i], q) && RowOk(dbs[i], r) && SlotOk(dbs[i], p);
  }

  /** No run of any reachable state refers to a deleted dataset; keys name one run each. */
  lemma ReferencesStayLive(dbs: seq<Db>, steps: seq<Step>, i: nat, r: string, d: string)
    requires History(dbs, steps) && i < |dbs| && r in dbs[i].runs && RefersTo(dbs[i].runs[r].spec, d)
    ensures d in dbs[i].datasets && !dbs[i].datasets[d].deleted && dbs[i].datasets[d].project == dbs[i].runs[r].project
  {
    ReachableInv(dbs, steps, i);
    assert RowOk(dbs[i], r);
  }

  // ---------------------------------------------------------------------------------------
  // What may change between two states
  // ---------------------------------------------------------------------------------------

  predicate RunEvolves(a: Db, b: Db, r: string) {
    r in a.runs ==> (
      r in b.runs &&
      var x := a.runs[r]; var y := b.runs[r];
      && y.project == x.project && y.actor == x.actor && y.key == x.key && y.spec == x.spec
      && y.provenance == x.provenance && y.parent == x.parent && y.created == x.created && y.serial == x.serial
      && (x.status.Terminal() ==> y == x)
      && (x.cancelRequested ==> y.cancelRequested)
      && (x.status != Queued ==> y.status != Queued)
      && (x.status == Running && y.status == Running ==> y.lease == x.lease))
  }

  /** A token that was drawn and that no run holds any more. */
  ghost predicate Dead(db: Db, lease: string) {
    lease in db.issued && forall r :: r in db.runs ==> db.runs[r].lease != Some(lease)
  }

  ghost predicate Evolves(a: Db, b: Db) {
    && a.events <= b.events && a.issued <= b.issued && a.projects.Keys <= b.projects.Keys
    && (forall r {:trigger RunEvolves(a, b, r)} :: RunEvolves(a, b, r))
    && (forall l {:trigger Dead(a, l)} {:trigger Dead(b, l)} :: Dead(a, l) ==> Dead(b, l))
  }

  lemma StepEvolves(a: Db, s: Step, b: Db)
    requires Inv(a) && Next(a, s, b)
    ensures Evolves(a, b)
  {
    forall r ensures RunEvolves(a, b, r) {
      assert RowOk(a, r);
      RunStepEvolves(a, s, b, r);
    }
    forall l | Dead(a, l) ensures Dead(b, l) { DeadStepEvolves(a, s, b, l); }
  }

  lemma RunStepEvolves(a: Db, s: Step, b: Db, r: string)
    requires RowOk(a, r) && Next(a, s, b)
    ensures RunEvolves(a, b, r)
  {
    hide DatasetsOk, ParentOk, OutcomeOk;
    match s
    case Claim(p, want, token, now) =>
      if b != a { var q :| Oldest(a, p, want, q) && b == Claimed(a, p, q, token, now); }
    case _ =>
  }

  lemma DeadStepEvolves(a: Db, s: Step, b: Db, l: string)
    requires Next(a, s, b) && Dead(a, l)
    ensures Dead(b, l)
  {
    forall r | r in b.runs ensures b.runs[r].lease != Some(l) { assert r in a.runs ==> a.runs[r].lease != Some(l); }
  }

  lemma EvolvesTransitive(a: Db, b: Db, c: Db)
    requires Evolves(a, b) && Evolves(b, c)
    ensures Evolves(a, c)
  {
    forall r ensures RunEvolves(a, c, r) { assert RunEvolves(a, b, r) && RunEvolves(b, c, r); }
    forall l | Dead(a, l) ensures Dead(c, l) { assert Dead(b, l); }
  }

  /** Any stretch of any interleaving: rows are never dropped, terminal rows are never touched again,
      a run is never claimed a second time and a dead lease never comes back. */
  lemma {:induction false} TraceEvolves(dbs: seq<Db>, steps: seq<Step>, i: nat, j: nat)
    requires Trace(dbs, steps) && Inv(dbs[0]) && i <= j < |dbs|
    ensures Evolves(dbs[i], dbs[j])
  {
    if i == j {
      forall r ensures RunEvolves(dbs[i], dbs[i], r) {}
    } else {
      TraceEvolves(dbs, steps, i, j - 1);
      TraceKeepsInv(dbs, steps);
      StepEvolves(dbs[j - 1], steps[j - 1], dbs[j]);
      EvolvesTransitive(dbs[i], dbs[j - 1], dbs[j]);
    }
  }

  /** Once a lease has died, presenting it changes nothing, at any later time. */
  lemma DeadLeaseIsPowerless(dbs: seq<Db>, steps: seq<Step>, i: nat, j: nat, lease: string)
    requires Trace(dbs, steps) && Inv(dbs[0]) && i <= j < |steps| && Dead(dbs[i], lease)
    requires match steps[j] case Heartbeat(_, _, l, _) => l == Some(lease)
                            case Finish(_, _, l, _, _, _, _) => l == Some(lease)
                            case _ => false
    ensures dbs[j + 1] == dbs[j]
  {
    TraceEvolves(dbs, steps, i, j);
    assert Dead(dbs[j], lease);
  }

  lemma TerminalIsAbsorbing(dbs: seq<Db>, steps: seq<Step>, i: nat, j: nat, r: string)
    requires Trace(dbs, steps) && Inv(dbs[0]) && i <= j < |dbs|
    requires r in dbs[i].runs && dbs[i].runs[r].status.Terminal()
    ensures r in dbs[j].runs && dbs[j].runs[r] == dbs[i].runs[r]
  {
    TraceEvolves(dbs, steps, i, j);
    assert RunEvolves(dbs[i], dbs[j], r);
  }

  // ---------------------------------------------------------------------------------------
  // Idempotent submission
  // ---------------------------------------------------------------------------------------

  /** What `submit` answers: the run it made, the first run under this key, or a refusal. */
  ghost predicate SubmitAnswer(db: Db, id: string, spec: Spec, actor: string, key: string, db': Db,
                               answer: Result<string, Error>)
  {
    if KeyTaken(db, spec.project, actor, key) then
      exists r :: r in db.runs && SameKey(db.runs[r], spec.project, actor, key) &&
        answer == if db.runs[r].spec == spec then Success(r) else Failure(RunConflict)
    else if MaySubmit(db, id, spec, actor, key) then answer == Success(id)
    else answer.Failure?
  }

  /** However much later, a second submission under the same key adds nothing: it returns the first
      run when the spec is the same and is refused when it is not. */
  lemma ResubmitIsIdempotent(dbs: seq<Db>, steps: seq<Step>, i: nat, j: nat, first: string,
                             answer: Result<string, Error>)
    requires Trace(dbs, steps) && Inv(dbs[0]) && i < j < |steps|
    requires steps[i].Submit? && steps[i].id == first
    requires MaySubmit(dbs[i], first, steps[i].spec, steps[i].actor, steps[i].key)
    requires steps[j].Submit? && steps[j].spec.project == steps[i].spec.project
    requires steps[j].actor == steps[i].actor && steps[j].key == steps[i].key
    requires SubmitAnswer(dbs[j], steps[j].id, steps[j].spec, steps[j].actor, steps[j].key, dbs[j + 1], answer)
    ensures dbs[j + 1] == dbs[j]
    ensures answer == if steps[j].spec == steps[i].spec then Success(first) else Failure(RunConflict)
  {
    TraceEvolves(dbs, steps, i + 1, j);
    assert RunEvolves(dbs[i + 1], dbs[j], first);
    assert SameKey(dbs[j].runs[first], steps[j].spec.project, steps[j].actor, steps[j].key);
    TraceKeepsInv(dbs, steps);
    forall r | r in dbs[j].runs && SameKey(dbs[j].runs[r], steps[j].spec.project, steps[j].actor, steps[j].key)
      ensures r == first
    {
      assert PairOk(dbs[j], r, first);
    }
  }

  // ---------------------------------------------------------------------------------------
  // Two-phase stale recovery
  // ---------------------------------------------------------------------------------------

  /** The step `interrupt_stale` commits: it names the lease read earlier and the cutoff taken at `cutoffTime`. */
  function StaleFinish(p: string, r: string, lease: Option<string>, cutoffTime: int): Step {
    Finish(p, r, lease, Interrupted, None, Some("Worker heartbeat expired"), Some(cutoffTime - STALE_SECONDS))
  }

  /** A run held under a lease at two times was held under it all the while: a lost lease never comes back. */
  lemma HeldBetween(dbs: seq<Db>, steps: seq<Step>, i: nat, k: nat, j: nat, p: string, r: string, lease: Option<string>)
    requires Trace(dbs, steps) && Inv(dbs[0]) && i <= k <= j < |dbs|
    requires Holds(dbs[i], p, r, lease) && Holds(dbs[j], p, r, lease)
    ensures Holds(dbs[k], p, r, lease)
  {
    TraceEvolves(dbs, steps, i, k);
    TraceEvolves(dbs, steps, k, j);
    assert RunEvolves(dbs[i], dbs[k], r) && RunEvolves(dbs[k], dbs[j], r);
  }

  /** While a run is held, its stored heartbeat does not fall below a bound that all heartbeats in between respect. */
  lemma {:induction false} HeartbeatStays(dbs: seq<Db>, steps: seq<Step>, k: nat, l: nat, p: string, r: string,
                                          lease: Option<string>, bound: int)
    requires Trace(dbs, steps) && Inv(dbs[0]) && k <= l < |dbs|
    requires Holds(dbs[k], p, r, lease) && dbs[k].runs[r].heartbeat.GetOr(0) >= bound
    requires forall m :: k <= m < l && steps[m].Heartbeat? && steps[m].r == r ==> steps[m].now >= bound
    ensures Holds(dbs[l], p, r, lease) ==> dbs[l].runs[r].heartbeat.GetOr(0) >= bound
  {
    if k < l && Holds(dbs[l], p, r, lease) {
      HeldBetween(dbs, steps, k, l - 1, l, p, r, lease);
      HeartbeatStays(dbs, steps, k, l - 1, p, r, lease, bound);
      HeartbeatKept(dbs, steps, l - 1, p, r, lease, bound);
    }
  }

  lemma HeartbeatKept(dbs: seq<Db>, steps: seq<Step>, l: nat, p: string, r: string, lease: Option<string>, bound: int)
    requires Trace(dbs, steps) && l < |steps| && Holds(dbs[l], p, r, lease) && Holds(dbs[l + 1], p, r, lease)
    requires dbs[l].runs[r].heartbeat.GetOr(0) >= bound
    requires steps[l].Heartbeat? && steps[l].r == r ==> steps[l].now >= bound
    ensures dbs[l + 1].runs[r].heartbeat.GetOr(0) >= bound
  {
    HeartbeatStep(dbs[l], steps[l], dbs[l + 1], p, r, lease, bound);
  }

  lemma HeartbeatStep(a: Db, s: Step, b: Db, p: string, r: string, lease: Option<string>, bound: int)
    requires Next(a, s, b) && Holds(a, p, r, lease) && Holds(b, p, r, lease)
    requires a.runs[r].heartbeat.GetOr(0) >= bound && (s.Heartbeat? && s.r == r ==> s.now >= bound)
    ensures b.runs[r].heartbeat.GetOr(0) >= bound
  {
  }

  /** A heartbeat that commits between the read and the `finish`, no more than 120 s before the cutoff was taken,
      stops the recovery: nothing changes. Heartbeats are committed in the order of their times. */
  lemma RenewedHeartbeatStopsRecovery(dbs: seq<Db>, steps: seq<Step>, i: nat, k: nat, j: nat, p: string, r: string,
      t2: int)
    requires Trace(dbs, steps) && Inv(dbs[0]) && i <= k < j < |steps|
    requires r in dbs[i].runs && dbs[i].runs[r].project == p && dbs[i].runs[r].status == Running
    requires steps[k].Heartbeat? && steps[k].p == p && steps[k].r == r && steps[k].lease == dbs[i].runs[r].lease
    requires Holds(dbs[k], p, r, steps[k].lease) && steps[k].now >= t2 - STALE_SECONDS
    requires forall m :: k < m < j && steps[m].Heartbeat? ==> steps[m].now >= steps[k].now
    requires steps[j] == StaleFinish(p, r, dbs[i].runs[r].lease, t2)
    ensures dbs[j + 1] == dbs[j]
  {
    HeartbeatStays(dbs, steps, k + 1, j, p, r, steps[k].lease, t2 - STALE_SECONDS);
  }

  /** `interrupt_stale` reads, without a lock, that run `r` is held under `lease` at step `i`, takes its cutoff at
      `t2` and commits at step `j`, at `t3`. Whatever ran in between, it changes something if and only if the run is
      still held under that lease and its stored heartbeat is below the cutoff. Then the run was held under it all the
      while, no heartbeat committed since the read is within 120 s of the cutoff's time, and the run ends without a
      manifest. */
  lemma StaleRecoveryIsSafe(dbs: seq<Db>, steps: seq<Step>, i: nat, j: nat, p: string, r: string, lease: Option<string>,
                            t2: int, t3: int)
    requires Trace(dbs, steps) && Inv(dbs[0]) && i <= j < |steps| && t2 <= t3
    requires Holds(dbs[i], p, r, lease) && steps[j] == StaleFinish(p, r, lease, t2)
    requires forall k, m :: i <= k < m < j && steps[k].Heartbeat? && steps[m].Heartbeat? ==>
        steps[k].now <= steps[m].now
    ensures dbs[j + 1] != dbs[j] <==>
        Holds(dbs[j], p, r, lease) && dbs[j].runs[r].heartbeat.GetOr(0) < t2 - STALE_SECONDS
    ensures dbs[j + 1] != dbs[j] ==> forall k :: i <= k <= j ==> Holds(dbs[k], p, r, lease)
    ensures dbs[j + 1] != dbs[j] ==>
      forall k :: i <= k < j && Beats(steps[k], p, r, lease) ==> steps[k].now < t2 - STALE_SECONDS
    ensures dbs[j + 1] != dbs[j] ==>
      && t3 - dbs[j].runs[r].heartbeat.GetOr(0) > STALE_SECONDS
      && dbs[j + 1].runs[r].status == (if dbs[j].runs[r].cancelRequested then Cancelled else Interrupted)
      && dbs[j + 1].runs[r].manifest == None && Slot(dbs[j + 1], p) == None
  {
    TraceKeepsInv(dbs, steps);
    assert RowOk(dbs[j], r);
    if dbs[j + 1] != dbs[j] {
      forall k | i <= k <= j ensures Holds(dbs[k], p, r, lease) { HeldBetween(dbs, steps, i, k, j, p, r, lease); }
      forall k | i <= k < j && Beats(steps[k], p, r, lease) ensures steps[k].now < t2 - STALE_SECONDS {
        if steps[k].now >= t2 - STALE_SECONDS {
          HeartbeatStays(dbs, steps, k + 1, j, p, r, lease, t2 - STALE_SECONDS);
        }
      }
    }
  }

  predicate Beats(s: Step, p: string, r: string, lease: Option<string>) {
    s.Heartbeat? && s.p == p && s.r == r && s.lease == lease
  }

  // ---------------------------------------------------------------------------------------
  // A worker's view of everyone else
  // ---------------------------------------------------------------------------------------

  /** Only the holder presents its lease to `finish`; operators do so through stale recovery alone. */
  predicate ByOthers(s: Step, held: Option<string>) {
    s.Finish? && held.Some? && s.lease == held ==> s.status == Interrupted && s.manifest == None
  }

  ghost predicate Path(a: Db, dbs: seq<Db>, steps: seq<Step>, b: Db, held: Option<string>) {
    && Trace(dbs, steps) && dbs[0] == a && dbs[|steps|] == b
    && forall i :: 0 <= i < |steps| ==> ByOthers(steps[i], held)
  }

  ghost predicate Reaches(a: Db, b: Db, held: Option<string>) {
    exists dbs, steps :: Path(a, dbs, steps, b, held)
  }

  /** The run is still the worker's, or others ended it without publishing anything. */
  predicate HeldOrLost(db: Db, p: string, r: string, held: Option<string>) {
    || (held.Some? && Holds(db, p, r, held))
    || (r in db.runs && db.runs[r].project == p && db.runs[r].status in {Interrupted, Cancelled} &&
        db.runs[r].manifest == None)
  }

  lemma OthersStepKeepsHold(a: Db, s: Step, b: Db, p: string, r: string, held: Option<string>)
    requires RowOk(a, r) && Next(a, s, b) && ByOthers(s, held) && HeldOrLost(a, p, r, held)
    requires s.Finish? ==> PairOk(a, s.r, r)
    ensures HeldOrLost(b, p, r, held)
  {
    hide DatasetsOk, ParentOk, OutcomeOk, PairOk;
    match s
    case Finish(_, _, _, _, _, _, _) => OthersFinishKeepsHold(a, s, b, p, r, held);
    case Claim(_, want, token, now) =>
      if b != a {
        var q :| Oldest(a, s.p, want, q) && b == Claimed(a, s.p, q, token, now);
        OthersClaimKeepsHold(a, s.p, q, token, now, p, r, held);
      }
    case _ =>
  }

  lemma OthersFinishKeepsHold(a: Db, s: Step, b: Db, p: string, r: string, held: Option<string>)
    requires s.Finish? && RowOk(a, r) && Next(a, s, b) && ByOthers(s, held) && HeldOrLost(a, p, r, held)
    requires PairOk(a, s.r, r)
    ensures HeldOrLost(b, p, r, held)
  {
    if s.r == r { assert a.runs[r].lease == s.lease || b == a; }
  }

  lemma OthersClaimKeepsHold(a: Db, c: string, q: string, token: string, now: int, p: string, r: string,
                             held: Option<string>)
    requires RowOk(a, r) && HeldOrLost(a, p, r, held) && q in a.runs && a.runs[q].status == Queued
    ensures HeldOrLost(Claimed(a, c, q, token, now), p, r, held)
  {
  }

  lemma {:induction false} OthersKeepHold(dbs: seq<Db>, steps: seq<Step>, p: string, r: string, held: Option<string>)
    requires Trace(dbs, steps) && Inv(dbs[0]) && HeldOrLost(dbs[0], p, r, held)
    requires forall i :: 0 <= i < |steps| ==> ByOthers(steps[i], held)
    ensures HeldOrLost(dbs[|steps|], p, r, held)
  {
    if steps != [] {
      var n := |steps| - 1;
      OthersKeepHold(dbs[..n + 1], steps[..n], p, r, held);
      TraceKeepsInv(dbs, steps);
      OthersKeepHoldNext(dbs[n], steps[n], dbs[n + 1], p, r, held);
    }
  }

  lemma OthersKeepHoldNext(a: Db, s: Step, b: Db, p: string, r: string, held: Option<string>)
    requires Inv(a) && Next(a, s, b) && ByOthers(s, held) && HeldOrLost(a, p, r, held)
    ensures HeldOrLost(b, p, r, held)
  {
    assert RowOk(a, r) && (s.Finish? ==> PairOk(a, s.r, r));
    OthersStepKeepsHold(a, s, b, p, r, held);
  }

  lemma ReachesSafely(a: Db, b: Db, held: Option<string>)
    requires Inv(a) && Reaches(a, b, held)
    ensures Inv(b) && Evolves(a, b)
    ensures forall p, r :: HeldOrLost(a, p, r, held) ==> HeldOrLost(b, p, r, held)
  {
    var dbs, steps :| Path(a, dbs, steps, b, held);
    TraceKeepsInv(dbs, steps);
    TraceEvolves(dbs, steps, 0, |steps|);
    forall p, r | HeldOrLost(a, p, r, held) ensures HeldOrLost(b, p, r, held) {
      OthersKeepHold(dbs, steps, p, r, held);
    }
  }

  lemma ReachesNothing(a: Db, held: Option<string>)
    ensures Reaches(a, a, held)
  {
    var none: seq<Step> := [];
    assert Path(a, [a], none, a, held);
  }

  lemma ReachesStep(a: Db, s: Step, b: Db, held: Option<string>)
    requires Next(a, s, b) && ByOthers(s, held)
    ensures Reaches(a, b, held)
  {
    assert Path(a, [a, b], [s], b, held);
  }

  lemma {:induction false} PathsJoin(a: Db, d1: seq<Db>, s1: seq<Step>, b: Db, d2: seq<Db>, s2: seq<Step>, c: Db,
      held: Option<string>)
    requires Path(a, d1, s1, b, held) && Path(b, d2, s2, c, held)
    ensures Path(a, d1 + d2[1..], s1 + s2, c, held)
  {
    var d, s := d1 + d2[1..], s1 + s2;
    forall i | 0 <= i < |s| ensures Next(d[i], s[i], d[i + 1]) {
      if i < |s1| {
        assert s[i] == s1[i] && d[i] == d1[i] && d[i + 1] == d1[i + 1];
      } else {
        assert s[i] == s2[i - |s1|] && d[i] == d2[i - |s1|] && d[i + 1] == d2[i + 1 - |s1|];
      }
    }
  }

  lemma ReachesTransitive(a: Db, b: Db, c: Db, held: Option<string>)
    requires Reaches(a, b, held) && Reaches(b, c, held)
    ensures Reaches(a, c, held)
  {
    var d1, s1 :| Path(a, d1, s1, b, held);
    var d2, s2 :| Path(b, d2, s2, c, held);
    PathsJoin(a, d1, s1, b, d2, s2, c, held);
  }
}
