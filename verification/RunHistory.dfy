/** Where every field of a row comes from: laws over whole histories of the store. */
module RunHistory {
  import opened Wrappers
  import opened RunTables
  import opened RunInvariants
  import opened RunTheorems

  // ---------------------------------------------------------------------------------------
  // Submission
  // ---------------------------------------------------------------------------------------

  /** Step `s` inserted row `r`, which still has everything it was submitted with. */
  predicate Inserted(a: Db, s: Step, r: string, row: Run) {
    && s.Submit? && s.id == r && r !in a.runs
    && row.spec == s.spec && row.project == s.spec.project && row.actor == s.actor && row.key == s.key
    && row.provenance == s.provenance && row.parent == s.parent && row.created == s.now
  }

  lemma StepInserts(a: Db, s: Step, b: Db, r: string)
    requires Next(a, s, b) && r in b.runs && r !in a.runs
    ensures Inserted(a, s, r, b.runs[r]) && b.runs[r].status == Queued && !b.runs[r].cancelRequested
    ensures b.runs[r].lease == None && b.runs[r].heartbeat == None && b.runs[r].manifest == None
    ensures !KeyTaken(a, s.spec.project, s.actor, s.key)
  {
  }

  /** Every row was inserted by one submission, under a key that no row had, and keeps what it was submitted with. */
  lemma {:induction false} RowsComeFromSubmissions(dbs: seq<Db>, steps: seq<Step>, i: nat, r: string) returns (j: nat)
    requires History(dbs, steps) && i < |dbs| && r in dbs[i].runs
    ensures j < i && Inserted(dbs[j], steps[j], r, dbs[i].runs[r]) && r in dbs[j + 1].runs
    ensures dbs[j + 1].runs[r].status == Queued
    ensures !KeyTaken(dbs[j], steps[j].spec.project, steps[j].actor, steps[j].key)
  {
    if r in dbs[i - 1].runs {
      j := RowsComeFromSubmissions(dbs, steps, i - 1, r);
      ReachableInv(dbs, steps, i - 1);
      StepEvolves(dbs[i - 1], steps[i - 1], dbs[i]);
      assert RunEvolves(dbs[i - 1], dbs[i], r);
    } else {
      j := i - 1;
      StepInserts(dbs[j], steps[j], dbs[i], r);
    }
  }

  /** A submission inserts a row exactly when no row has its key and its datasets are live and its id is not taken; else
      it changes nothing. */
  lemma SubmissionInserts(a: Db, s: Step, b: Db)
    requires s.Submit? && Next(a, s, b)
    ensures b != a <==>
      && (forall q :: q in a.runs ==>
          a.runs[q].project != s.spec.project || a.runs[q].actor != s.actor || a.runs[q].key != s.key)
      && s.id !in a.runs
      && forall d :: d == s.spec.dataset || Some(d) == s.spec.validation ==>
           d in a.datasets && a.datasets[d].project == s.spec.project && !a.datasets[d].deleted
    ensures b != a ==> s.id in b.runs && b.runs == a.runs[s.id := b.runs[s.id]]
  {
    assert b != a ==> |b.events| > |a.events|;
  }

  // ---------------------------------------------------------------------------------------
  // Claims and heartbeats
  // ---------------------------------------------------------------------------------------

  /** A claim or a heartbeat of the holder of `lease`, with the time it stores. */
  predicate Takes(a: Db, s: Step, b: Db, p: string, r: string, lease: string, time: int) {
    || (s.Claim? && s.p == p && s.token == lease && s.now == time && r in a.runs && a.runs[r].status == Queued)
    || (Beats(s, p, r, Some(lease)) && s.now == time && Holds(a, p, r, Some(lease)))
  }

  /** What holds of a held run after a step: either the step took it, or it was held with the same heartbeat before. */
  lemma StepTakes(a: Db, s: Step, b: Db, p: string, r: string, lease: string)
    requires RowOk(a, r) && Next(a, s, b) && Holds(b, p, r, Some(lease))
    ensures
      || (exists time :: Takes(a, s, b, p, r, lease, time) && b.runs[r].heartbeat == Some(time))
      || (Holds(a, p, r, Some(lease)) && b.runs[r].heartbeat == a.runs[r].heartbeat && !Beats(s, p, r, Some(lease)))
  {
    hide DatasetsOk, ParentOk, OutcomeOk;
    match s
    case Claim(q, want, token, now) =>
      if b != a {
        var c :| Oldest(a, q, want, c) && b == Claimed(a, q, c, token, now);
        if c == r { assert Takes(a, s, b, p, r, lease, now); }
      }
    case Heartbeat(_, q, l, now) => if Beats(s, p, r, Some(lease)) { assert Takes(a, s, b, p, r, lease, now); }
    case _ =>
  }

  lemma InvRow(db: Db, r: string)
    requires Inv(db)
    ensures RowOk(db, r)
  {
  }

  /** A held run's stored heartbeat is exactly the time of the last claim or heartbeat that took it. */
  lemma {:induction false} HeartbeatIsTheLast(dbs: seq<Db>, steps: seq<Step>, i: nat, p: string, r: string,
      lease: string)
      returns (j: nat)
    requires History(dbs, steps) && i < |dbs| && Holds(dbs[i], p, r, Some(lease))
    ensures j < i && dbs[i].runs[r].heartbeat.Some?
    ensures Takes(dbs[j], steps[j], dbs[j + 1], p, r, lease, dbs[i].runs[r].heartbeat.value)
    ensures forall m :: j < m < i ==> !Beats(steps[m], p, r, Some(lease)) && Holds(dbs[m], p, r, Some(lease))
  {
    hide Next, Inv, Takes, RowOk;
    ReachableInv(dbs, steps, i - 1);
    InvRow(dbs[i - 1], r);
    StepTakes(dbs[i - 1], steps[i - 1], dbs[i], p, r, lease);
    if time :| Takes(dbs[i - 1], steps[i - 1], dbs[i], p, r, lease, time) && dbs[i].runs[r].heartbeat == Some(time) {
      j := i - 1;
    } else {
      j := HeartbeatIsTheLast(dbs, steps, i - 1, p, r, lease);
    }
  }

  /** A held run was claimed under the token it holds, once, and has been held under it ever since. */
  lemma {:induction false} HeldSinceTheClaim(dbs: seq<Db>, steps: seq<Step>, i: nat, p: string, r: string,
      lease: string)
      returns (j: nat)
    requires History(dbs, steps) && i < |dbs| && Holds(dbs[i], p, r, Some(lease))
    ensures j < i && steps[j].Claim? && steps[j].p == p && steps[j].token == lease
    ensures r in dbs[j].runs && dbs[j].runs[r].status == Queued && dbs[j + 1].runs[r].heartbeat == Some(steps[j].now)
    ensures forall m :: j < m <= i ==> Holds(dbs[m], p, r, Some(lease))
  {
    hide Next, Inv, RowOk;
    ReachableInv(dbs, steps, i - 1);
    InvRow(dbs[i - 1], r);
    StepTakes(dbs[i - 1], steps[i - 1], dbs[i], p, r, lease);
    if Holds(dbs[i - 1], p, r, Some(lease)) {
      j := HeldSinceTheClaim(dbs, steps, i - 1, p, r, lease);
    } else {
      j := i - 1;
    }
  }

  /** Stale recovery, exactly: the finish ends a run held under the lease iff the last claim or heartbeat that took it
      lies more than 120 s before the cutoff was taken. */
  lemma RecoveryExactly(dbs: seq<Db>, steps: seq<Step>, j: nat, p: string, r: string, lease: string, t2: int)
      returns (k: nat, time: int)
    requires History(dbs, steps) && j < |steps| && steps[j] == StaleFinish(p, r, Some(lease), t2)
    requires Holds(dbs[j], p, r, Some(lease))
    ensures k < j && Takes(dbs[k], steps[k], dbs[k + 1], p, r, lease, time)
    ensures forall m :: k < m < j ==> !Beats(steps[m], p, r, Some(lease)) && Holds(dbs[m], p, r, Some(lease))
    ensures dbs[j + 1] != dbs[j] <==> time < t2 - 120
  {
    k := HeartbeatIsTheLast(dbs, steps, j, p, r, lease);
    time := dbs[j].runs[r].heartbeat.value;
    ReachableInv(dbs, steps, j);
    assert RowOk(dbs[j], r);
  }

  lemma ClaimStores(a: Db, s: Step, b: Db, p: string, r: string, lease: string)
    requires RowOk(a, r) && Next(a, s, b) && s.Claim? && r in a.runs && a.runs[r].status == Queued
    requires Holds(b, p, r, Some(lease))
    ensures b.runs[r].heartbeat == Some(s.now)
  {
    StepTakes(a, s, b, p, r, lease);
  }

  /** A claim no more than 120 s before the cutoff stops the recovery as a heartbeat does. */
  lemma FreshClaimStopsRecovery(dbs: seq<Db>, steps: seq<Step>, k: nat, j: nat, p: string, r: string, lease: string,
      t2: int)
    requires Trace(dbs, steps) && Inv(dbs[0]) && k < j < |steps|
    requires steps[k].Claim? && r in dbs[k].runs && dbs[k].runs[r].status == Queued
    requires Holds(dbs[k + 1], p, r, Some(lease)) && steps[k].now >= t2 - 120
    requires forall m :: k < m < j && steps[m].Heartbeat? && steps[m].r == r ==> steps[m].now >= steps[k].now
    requires steps[j] == StaleFinish(p, r, Some(lease), t2)
    ensures dbs[j + 1] == dbs[j]
  {
    hide Next, Inv;
    TraceKeepsInv(dbs, steps);
    InvRow(dbs[k], r);
    ClaimStores(dbs[k], steps[k], dbs[k + 1], p, r, lease);
    HeartbeatStays(dbs, steps, k + 1, j, p, r, Some(lease), t2 - 120);
    NotStale(dbs[j], dbs[j + 1], p, r, lease, t2);
  }

  lemma NotStale(a: Db, b: Db, p: string, r: string, lease: string, t2: int)
    requires Next(a, StaleFinish(p, r, Some(lease), t2), b)
    requires Holds(a, p, r, Some(lease)) ==> a.runs[r].heartbeat.GetOr(0) >= t2 - 120
    ensures b == a
  {
  }

  // ---------------------------------------------------------------------------------------
  // Which run is claimed
  // ---------------------------------------------------------------------------------------

  /** A claim starts a run exactly when the project exists, its slot is free and a run is queued in it, or the named one
      is; it starts the named one, or one submitted no later than any other queued run. */
  lemma ClaimsOldestFirst(a: Db, s: Step, b: Db) returns (r: string)
    requires s.Claim? && Next(a, s, b)
    ensures b != a <==>
      && s.p in a.projects && a.projects[s.p] == None
      && exists q :: q in a.runs && a.runs[q].project == s.p && a.runs[q].status == Queued && s.want in {None, Some(q)}
    ensures b != a ==>
      && r in a.runs && a.runs[r].project == s.p && a.runs[r].status == Queued && Holds(b, s.p, r, Some(s.token))
      && s.want in {None, Some(r)}
      && forall q :: q in a.runs && a.runs[q].project == s.p && a.runs[q].status == Queued && s.want == None ==>
           a.runs[r].created <= a.runs[q].created
  {
    r := "";
    if b != a {
      r :| Oldest(a, s.p, s.want, r) && b == Claimed(a, s.p, r, s.token, s.now);
      forall q | q in a.runs && a.runs[q].project == s.p && a.runs[q].status == Queued && s.want == None
        ensures a.runs[r].created <= a.runs[q].created
      {
        assert Candidate(a, s.p, s.want, q);
      }
    } else if s.p in a.projects && a.projects[s.p] == None {
      forall c | Oldest(a, s.p, s.want, c) ensures Claimed(a, s.p, c, s.token, s.now) != a {
        assert |Claimed(a, s.p, c, s.token, s.now).events| > |a.events|;
      }
      forall q | q in a.runs && a.runs[q].project == s.p && a.runs[q].status == Queued
        ensures s.want !in {None, Some(q)}
      {
        assert !Candidate(a, s.p, s.want, q);
      }
    }
  }

  // ---------------------------------------------------------------------------------------
  // How a run ends
  // ---------------------------------------------------------------------------------------

  /** Step `s` ended run `r` as the row `y`: a finish by the holder, in which a requested cancel wins and only success
      keeps the manifest, or a cancel of a queued run. */
  predicate EndedBy(a: Db, s: Step, r: string, y: Run) {
    && r in a.runs && y.lease == None
    && var x := a.runs[r];
       || (s.Finish? && s.r == r && s.p == x.project && x.status == Running && x.lease == s.lease
           && (s.staleBefore.Some? ==> x.heartbeat.GetOr(0) < s.staleBefore.value)
           && s.status in {Succeeded, Failed, Cancelled, Interrupted}
           && y.status == (if x.cancelRequested then Cancelled else s.status)
           && y.manifest == (if s.status == Succeeded && !x.cancelRequested then s.manifest else None)
           && y.error == s.error && y.cancelRequested == x.cancelRequested)
       || (s.Cancel? && s.r == r && s.p == x.project && x.status == Queued
           && y.status == Cancelled && y.cancelRequested && y.manifest == x.manifest && y.error == x.error)
  }

  lemma StepEnds(a: Db, s: Step, b: Db, r: string)
    requires RowOk(a, r) && Next(a, s, b) && r in a.runs && !a.runs[r].status.Terminal()
    requires r in b.runs && b.runs[r].status.Terminal()
    ensures EndedBy(a, s, r, b.runs[r])
  {
  }

  /** Every ended run was ended by one step and is as that step left it. */
  lemma {:induction false} RunsEndByOneStep(dbs: seq<Db>, steps: seq<Step>, i: nat, r: string) returns (j: nat)
    requires History(dbs, steps) && i < |dbs| && r in dbs[i].runs && dbs[i].runs[r].status.Terminal()
    ensures j < i && EndedBy(dbs[j], steps[j], r, dbs[i].runs[r])
  {
    hide Next, Inv, EndedBy, RowOk;
    ReachableInv(dbs, steps, i - 1);
    if r !in dbs[i - 1].runs {
      StepInserts(dbs[i - 1], steps[i - 1], dbs[i], r);
    } else if dbs[i - 1].runs[r].status.Terminal() {
      j := RunsEndByOneStep(dbs, steps, i - 1, r);
      ReachableInv(dbs, steps, 0);
      TerminalIsAbsorbing(dbs, steps, i - 1, i, r);
    } else {
      j := i - 1;
      InvRow(dbs[j], r);
      StepEnds(dbs[j], steps[j], dbs[i], r);
    }
  }

  /** A finish ends the run it names exactly when the status is one a run can end in, the presenter holds the run,
      and, with a cutoff, its heartbeat is below it. */
  lemma FinishEndsExactly(a: Db, s: Step, b: Db)
    requires Inv(a) && s.Finish? && Next(a, s, b)
    ensures b != a <==>
      && s.status in {Succeeded, Failed, Cancelled, Interrupted}
      && s.r in a.runs && a.runs[s.r].project == s.p && a.runs[s.r].status == Running && a.runs[s.r].lease == s.lease
      && (s.staleBefore.Some? ==> a.runs[s.r].heartbeat.GetOr(0) < s.staleBefore.value)
    ensures b != a ==> b.runs[s.r].status.Terminal() && b.projects == a.projects[s.p := None]
  {
    if s.r in a.runs { assert RowOk(a, s.r); }
    assert b != a ==> |b.events| > |a.events|;
  }

  /** A row carries the cancel flag exactly when some cancel of it came while it had not ended. */
  lemma {:induction false} CancelFlagExactly(dbs: seq<Db>, steps: seq<Step>, i: nat, r: string)
    requires History(dbs, steps) && i < |dbs| && r in dbs[i].runs
    ensures dbs[i].runs[r].cancelRequested <==> exists j :: 0 <= j < i && Cancels(dbs[j], steps[j], r)
  {
    hide Next, Inv, Cancels;
    ReachableInv(dbs, steps, i - 1);
    if r in dbs[i - 1].runs {
      CancelFlagExactly(dbs, steps, i - 1, r);
      CancelFlagStep(dbs[i - 1], steps[i - 1], dbs[i], r);
    } else {
      StepInserts(dbs[i - 1], steps[i - 1], dbs[i], r);
      forall j | 0 <= j < i ensures !Cancels(dbs[j], steps[j], r) {
        NotYet(dbs, steps, j, i - 1, r);
        NoRowNoCancel(dbs[j], steps[j], r);
      }
    }
  }

  predicate Cancels(a: Db, s: Step, r: string) {
    && s.Cancel? && s.r == r && s.p in a.projects
    && r in a.runs && a.runs[r].project == s.p && a.runs[r].status in {Queued, Running}
  }

  lemma NoRowNoCancel(a: Db, s: Step, r: string)
    requires r !in a.runs
    ensures !Cancels(a, s, r)
  {
  }

  lemma CancelFlagStep(a: Db, s: Step, b: Db, r: string)
    requires Inv(a) && Next(a, s, b) && r in a.runs
    ensures r in b.runs && b.runs[r].cancelRequested == (a.runs[r].cancelRequested || Cancels(a, s, r))
  {
  }

  lemma NotYet(dbs: seq<Db>, steps: seq<Step>, j: nat, i: nat, r: string)
    requires History(dbs, steps) && j <= i < |dbs| && r !in dbs[i].runs
    ensures r !in dbs[j].runs
  {
    ReachableInv(dbs, steps, 0);
    TraceEvolves(dbs, steps, j, i);
    assert RunEvolves(dbs[j], dbs[i], r);
  }

  // ---------------------------------------------------------------------------------------
  // Datasets
  // ---------------------------------------------------------------------------------------

  /** Step `s` deletes dataset `d` of project `p`: no run of the project refers to it. */
  ghost predicate Deletes(a: Db, s: Step, p: string, d: string) {
    && s.DeleteDataset? && s.p == p && s.d == d && p in a.projects
    && forall r :: r in a.runs && a.runs[r].project == p ==>
         a.runs[r].spec.dataset != d && a.runs[r].spec.validation != Some(d)
  }

  lemma LiveStep(a: Db, s: Step, b: Db, p: string, d: string)
    requires Next(a, s, b)
    ensures Live(b, p, d) <==>
      (Live(a, p, d) && !Deletes(a, s, p, d)) || (s == AddDataset(p, d) && d !in a.datasets)
    ensures d in a.datasets ==> d in b.datasets && b.datasets[d].project == a.datasets[d].project
  {
  }

  ghost predicate LiveSince(dbs: seq<Db>, steps: seq<Step>, j: nat, i: nat, p: string, d: string)
    requires |dbs| == |steps| + 1 && j < i < |dbs|
  {
    && steps[j] == AddDataset(p, d) && d !in dbs[j].datasets
    && forall m :: j < m < i ==> !Deletes(dbs[m], steps[m], p, d)
  }

  lemma LiveSinceNext(dbs: seq<Db>, steps: seq<Step>, j: nat, i: nat, p: string, d: string)
    requires |dbs| == |steps| + 1 && j < i < |dbs| && i > 0
    ensures LiveSince(dbs, steps, j, i, p, d) <==>
      if j == i - 1 then steps[j] == AddDataset(p, d) && d !in dbs[j].datasets
      else LiveSince(dbs, steps, j, i - 1, p, d) && !Deletes(dbs[i - 1], steps[i - 1], p, d)
  {
  }

  /** A dataset is live exactly when it was registered under a free id and has not been deleted since. */
  lemma {:induction false} LiveExactly(dbs: seq<Db>, steps: seq<Step>, i: nat, p: string, d: string)
    requires History(dbs, steps) && i < |dbs|
    ensures Live(dbs[i], p, d) <==> exists j: nat :: j < i && LiveSince(dbs, steps, j, i, p, d)
  {
    hide Next, Live, Deletes, LiveSince;
    if i == 0 {
      NothingLive(p, d);
    } else {
      LiveExactly(dbs, steps, i - 1, p, d);
      LiveStep(dbs[i - 1], steps[i - 1], dbs[i], p, d);
      forall j: nat | j < i
        ensures LiveSince(dbs, steps, j, i, p, d) <==>
          if j == i - 1 then steps[j] == AddDataset(p, d) && d !in dbs[j].datasets
          else LiveSince(dbs, steps, j, i - 1, p, d) && !Deletes(dbs[i - 1], steps[i - 1], p, d)
      {
        LiveSinceNext(dbs, steps, j, i, p, d);
      }
      if steps[i - 1] == AddDataset(p, d) && d !in dbs[i - 1].datasets {
        assert LiveSince(dbs, steps, i - 1, i, p, d);
      }
      var h: nat := i - 1;
      if j: nat :| j < h && LiveSince(dbs, steps, j, h, p, d) {
        assert LiveSince(dbs, steps, j, i, p, d) <==> !Deletes(dbs[i - 1], steps[i - 1], p, d);
      }
    }
  }

  lemma NothingLive(p: string, d: string)
    ensures !Live(EMPTY_DB, p, d)
  {
  }
}
