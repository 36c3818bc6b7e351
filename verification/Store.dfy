/** The `RunStore` object: its tables, and each method as the body of one transaction. */
module Store {
  import opened Wrappers
  import opened RunTables
  import opened RunTheorems

  lemma OldestExists(db: Db, p: string, want: Option<string>, among: set<string>) returns (r: string)
    requires among <= db.runs.Keys && exists q :: q in among && Candidate(db, p, want, q)
    ensures r in among && Candidate(db, p, want, r)
    ensures forall q :: q in among && Candidate(db, p, want, q) ==> db.runs[r].created <= db.runs[q].created
    decreases among
  {
    r :| r in among && Candidate(db, p, want, r);
    if exists q :: q in among - {r} && Candidate(db, p, want, q) {
      var q := OldestExists(db, p, want, among - {r});
      if db.runs[q].created < db.runs[r].created { r := q; }
    }
  }

  class RunStore {
    var projects: map<string, Option<string>>
    var datasets: map<string, Dataset>
    var runs: map<string, Run>
    var events: seq<Event>
    ghost var issued: set<string>

    ghost function Db(): Db reads this {
      RunTables.Db(projects, datasets, runs, events, issued)
    }

    constructor ()
      ensures Db() == EMPTY_DB
    {
      projects, datasets, runs, events, issued := map[], map[], map[], [], {};
    }

    method Append(project: string, run: Option<string>, kind: Kind)
      modifies this`events
      ensures Db() == Log(old(Db()), project, run, kind)
    {
      events := events + [Event(project, run, kind)];
    }

    method EnsureProject(p: string)
      modifies this
      ensures Db() == ProjectEnsured(old(Db()), p)
    {
      if p !in projects {
        projects := projects[p := None];
        Append(p, None, Other("project.created"));
      }
    }

    method AddDataset(p: string, d: string) returns (out: Result<string, Error>)
      modifies this
      ensures Db() == DatasetAdded(old(Db()), p, d)
      ensures out == if d in old(datasets) then Failure(IntegrityError) else Success(d)
    {
      if d in datasets { return Failure(IntegrityError); }
      datasets := datasets[d := Dataset(p, false)];
      Append(p, None, Other("dataset.registered"));
      return Success(d);
    }

    /** Scans the project's rows one by one, as the query does. */
    method DeleteDataset(p: string, d: string) returns (out: Result<(), Error>)
      modifies this
      ensures Db() == DatasetDeleted(old(Db()), p, d)
      ensures out.Success? <==> MayDelete(old(Db()), p, d)
    {
      if p !in projects { return Failure(NoResultFound); }
      var rest := runs.Keys;
      while rest != {}
        invariant rest <= runs.Keys
        invariant forall r :: r in runs.Keys - rest && runs[r].project == p ==> !RefersTo(runs[r].spec, d)
        decreases rest
      {
        var r :| r in rest;
        rest := rest - {r};
        if runs[r].project == p && RefersTo(runs[r].spec, d) { return Failure(RunConflict); }
      }
      if d in datasets && datasets[d].project == p { datasets := datasets[d := Dataset(p, true)]; }
      Append(p, None, Other("dataset.deleted"));
      return Success(());
    }

    method Submit(id: string, spec: Spec, actor: string, key: string, provenance: Provenance,
                  parent: Option<string>, now: int) returns (out: Result<string, Error>)
      modifies this
      ensures Db() == Submitted(old(Db()), id, spec, actor, key, provenance, parent, now)
      ensures SubmitAnswer(old(Db()), id, spec, actor, key, Db(), out)
    {
      if exists r :: r in runs && SameKey(runs[r], spec.project, actor, key) {
        var r :| r in runs && SameKey(runs[r], spec.project, actor, key);
        return if runs[r].spec == spec then Success(r) else Failure(RunConflict);
      }
      if spec.dataset !in datasets || datasets[spec.dataset] != Dataset(spec.project, false) {
        return Failure(RunConflict);
      }
      if spec.validation.Some? {
        var v := spec.validation.value;
        if v !in datasets || datasets[v] != Dataset(spec.project, false) { return Failure(RunConflict); }
      }
      if id in runs { return Failure(IntegrityError); }
      runs := runs[id := Run(spec.project, actor, key, spec, provenance, parent, now, |runs|,
                             Queued, false, None, None, None, None)];
      Append(spec.project, Some(id), RunQueued);
      return Success(id);
    }

    method Claim(p: string, want: Option<string>, token: string, now: int) returns (out: Result<Option<string>, Error>)
      requires token !in issued
      modifies this
      ensures ClaimStep(old(Db()), p, want, token, now, Db())
      ensures out.Failure? <==> p !in old(projects)
      ensures out.Success? && out.value.Some? ==>
        Oldest(old(Db()), p, want, out.value.value) && Db() == Claimed(old(Db()), p, out.value.value, token, now)
      ensures out == Success(None) ==>
        && Db() == old(Db())
        && (old(projects)[p].Some? || forall q :: q in old(runs) ==> !Candidate(old(Db()), p, want, q))
    {
      if p !in projects { return Failure(NoResultFound); }
      if projects[p].Some? { return Success(None); }
      ghost var db := Db();
      var queued := set r | r in runs && runs[r].project == p && runs[r].status == Queued &&
          (want.Some? ==> want.value == r);
      if queued == {} {
        assert forall q :: q in runs && Candidate(db, p, want, q) ==> q in queued;
        return Success(None);
      }
      ghost var q0 :| q0 in queued;
      assert Candidate(db, p, want, q0);
      ghost var first := OldestExists(db, p, want, queued);
      assert forall q :: q in queued ==> Candidate(db, p, want, q);
      var r :| r in queued && forall q :: q in queued ==> runs[r].created <= runs[q].created;
      assert Oldest(db, p, want, r);
      runs := runs[r := runs[r].(status := Running, lease := Some(token), heartbeat := Some(now))];
      projects := projects[p := Some(r)];
      issued := issued + {token};
      Append(p, Some(r), RunStarted);
      return Success(Some(r));
    }

    /** Answers whether a cancel has been requested. */
    method Heartbeat(p: string, r: string, lease: Option<string>, now: int) returns (out: Result<bool, Error>)
      modifies this
      ensures Db() == Beaten(old(Db()), p, r, lease, now)
      ensures out == if Holds(old(Db()), p, r, lease) then Success(old(runs)[r].cancelRequested)
          else Failure(RunConflict)
    {
      if !(r in runs && runs[r].project == p && runs[r].lease == lease && runs[r].status == Running) {
        return Failure(RunConflict);
      }
      runs := runs[r := runs[r].(heartbeat := Some(now))];
      return Success(runs[r].cancelRequested);
    }

    method Finish(p: string, r: string, lease: Option<string>, status: Status, manifest: Option<Manifest>,
                  error: Option<string>, staleBefore: Option<int>) returns (out: Result<Run, Error>)
      modifies this
      ensures Db() == Finished(old(Db()), p, r, lease, status, manifest, error, staleBefore)
      ensures out.Success? <==> MayFinish(old(Db()), p, r, lease, status, staleBefore)
      ensures out.Success? ==> r in runs && out.value == runs[r]
    {
      if !status.Terminal() { return Failure(RunConflict); }
      if p !in projects { return Failure(NoResultFound); }
      if !(r in runs && runs[r].project == p && runs[r].lease == lease && runs[r].status == Running) {
        return Failure(RunConflict);
      }
      var row := runs[r];
      if staleBefore.Some? && row.heartbeat.GetOr(0) >= staleBefore.value { return Failure(RunConflict); }
      assert MayFinish(Db(), p, r, lease, status, staleBefore);
      hide MayFinish, Holds;
      var final, published := status, manifest;
      if row.cancelRequested { final, published := Cancelled, None; }
      if final != Succeeded { published := None; }
      assert published == if final == Succeeded then manifest else None;
      runs := runs[r := row.(status := final, lease := None, manifest := published, error := error)];
      projects := projects[p := None];
      Append(p, Some(r), RunEnded(final));
      return Success(runs[r]);
    }

    method Cancel(p: string, r: string) returns (out: Result<Run, Error>)
      modifies this
      ensures Db() == CancelAsked(old(Db()), p, r)
      ensures out.Success? <==> p in old(projects) && r in old(runs) && old(runs)[r].project == p
      ensures out.Success? ==> r in runs && out.value == runs[r]
    {
      if p !in projects { return Failure(NoResultFound); }
      if r !in runs || runs[r].project != p { return Failure(KeyError); }
      if runs[r].status == Queued || runs[r].status == Running {
        runs := runs[r := runs[r].(cancelRequested := true,
                                   status := if runs[r].status == Queued then Cancelled else Running)];
        Append(p, Some(r), RunCancelRequested);
      }
      return Success(runs[r]);
    }

    method Get(p: string, r: string) returns (out: Result<Run, Error>)
      ensures out == if r in runs && runs[r].project == p then Success(runs[r]) else Failure(KeyError)
    {
      if r !in runs || runs[r].project != p { return Failure(KeyError); }
      return Success(runs[r]);
    }

    method FindProject(p: string) returns (out: Result<(), Error>)
      ensures out == if p in projects then Success(()) else Failure(KeyError)
    {
      return if p in projects then Success(()) else Failure(KeyError);
    }

    method FindDataset(p: string, d: string) returns (out: Result<(), Error>)
      ensures out == if Live(Db(), p, d) then Success(()) else Failure(KeyError)
    {
      if d !in datasets || datasets[d].project != p || datasets[d].deleted { return Failure(KeyError); }
      return Success(());
    }

    /** Everyone else's transactions between two of this caller's. `held` is a lease only this caller knows. */
    method Interfere(ghost held: Option<string>)
      modifies this
      ensures Reaches(old(Db()), Db(), held)
    {
      ReachesNothing(Db(), held);
    }

    /** The unlocked read at `t1`, the cutoff at `t2` and the conditional `finish` that commits at `t3`. `mid` is the
        state that the finish finds, or the one in which the read refuses. */
    method InterruptStale(p: string, r: string, t1: int, t2: int, ghost t3: int)
        returns (out: Result<Run, Error>, ghost mid: Db)
      requires Inv(Db()) && t1 <= t2 <= t3
      modifies this
      ensures Inv(Db())
      ensures Reaches(old(Db()), mid, None) && Reaches(old(Db()), Db(), None)
      ensures out.Failure? ==> Db() == mid
      ensures out.Success? ==>
        && r in old(runs) && Holds(old(Db()), p, r, old(runs)[r].lease) && Holds(mid, p, r, old(runs)[r].lease)
        && t1 - old(runs)[r].heartbeat.GetOr(0) >= STALE_SECONDS
        && t3 - mid.runs[r].heartbeat.GetOr(0) > STALE_SECONDS
        && r in runs && out.value == runs[r] && runs[r].project == p && runs[r].manifest == None
        && Slot(Db(), p) == None
        && runs[r].status == if mid.runs[r].cancelRequested then Cancelled else Interrupted
      ensures r in old(runs) && Holds(old(Db()), p, r, old(runs)[r].lease) ==>
        (out.Success? <==>
          && t1 - old(runs)[r].heartbeat.GetOr(0) >= STALE_SECONDS
          && Holds(mid, p, r, old(runs)[r].lease)
          && mid.runs[r].heartbeat.GetOr(0) < t2 - STALE_SECONDS)
    {
      mid := Db();
      ReachesNothing(mid, None);
      if r !in runs || runs[r].project != p { return Failure(NoResultFound), mid; }
      var row := runs[r];
      if row.status != Running || t1 - row.heartbeat.GetOr(0) < STALE_SECONDS { return Failure(RunConflict), mid; }
      ghost var before := Db();
      Interfere(None);
      mid := Db();
      ReachesSafely(before, mid, None);
      assert RowOk(mid, r) && RunEvolves(before, mid, r);
      out := Finish(p, r, row.lease, Interrupted, None, Some("Worker heartbeat expired"), Some(t2 - STALE_SECONDS));
      ReachesStep(mid, StaleFinish(p, r, row.lease, t2), Db(), None);
      ReachesTransitive(before, mid, Db(), None);
      ReachesSafely(before, Db(), None);
    }
  }
}
