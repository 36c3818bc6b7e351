/** What every transaction keeps, and what therefore holds of every interleaving. */
module RunInvariants {
  import opened Wrappers
  import opened RunTables

  // ---------------------------------------------------------------------------------------
  // One step keeps the tables consistent
  // ---------------------------------------------------------------------------------------

  lemma SubmitKeepsTables(db: Db, id: string, spec: Spec, actor: string, key: string, prov: Provenance,
                          parent: Option<string>, now: int)
    requires TableInv(db) && ParentKnown(db, spec.project, parent)
    ensures TableInv(Submitted(db, id, spec, actor, key, prov, parent, now))
  {
    var db' := Submitted(db, id, spec, actor, key, prov, parent, now);
    assert parent.Some? ==> RowOk(db, parent.value);
    forall q ensures RowOk(db', q) { assert RowOk(db, q); }
    forall q, q' ensures PairOk(db', q, q') { assert PairOk(db, q, q'); }
    forall p' ensures SlotOk(db', p') { assert SlotOk(db, p'); }
  }

  lemma ClaimKeepsTables(db: Db, p: string, r: string, token: string, now: int)
    requires TableInv(db) && token !in db.issued && p in db.projects && db.projects[p].None?
    requires Candidate(db, p, None, r)
    ensures TableInv(Claimed(db, p, r, token, now))
  {
    var db' := Claimed(db, p, r, token, now);
    forall q ensures RowOk(db', q) { assert RowOk(db, q) && RowOk(db, r); }
    forall q, q' ensures PairOk(db', q, q') { assert PairOk(db, q, q') && RowOk(db, q) && RowOk(db, q'); }
    forall p' ensures SlotOk(db', p') { assert SlotOk(db, p'); }
  }

  lemma BeatKeepsTables(db: Db, p: string, r: string, lease: Option<string>, now: int)
    requires TableInv(db)
    ensures TableInv(Beaten(db, p, r, lease, now))
  {
    var db' := Beaten(db, p, r, lease, now);
    forall q ensures RowOk(db', q) { assert RowOk(db, q); }
    forall q, q' ensures PairOk(db', q, q') { assert PairOk(db, q, q'); }
    forall p' ensures SlotOk(db', p') { assert SlotOk(db, p'); }
  }

  lemma FinishKeepsTables(db: Db, p: string, r: string, lease: Option<string>, status: Status,
                          manifest: Option<Manifest>, error: Option<string>, stale: Option<int>)
    requires TableInv(db)
    ensures TableInv(Finished(db, p, r, lease, status, manifest, error, stale))
  {
    var db' := Finished(db, p, r, lease, status, manifest, error, stale);
    forall q ensures RowOk(db', q) { assert RowOk(db, q) && RowOk(db, r); }
    forall q, q' ensures PairOk(db', q, q') { assert PairOk(db, q, q'); }
    forall p' ensures SlotOk(db', p') { assert SlotOk(db, p') && RowOk(db, r); }
  }

  lemma CancelKeepsTables(db: Db, p: string, r: string)
    requires TableInv(db)
    ensures TableInv(CancelAsked(db, p, r))
  {
    var db' := CancelAsked(db, p, r);
    forall q ensures RowOk(db', q) { assert RowOk(db, q); }
    forall q, q' ensures PairOk(db', q, q') { assert PairOk(db, q, q'); }
    forall p' ensures SlotOk(db', p') { assert SlotOk(db, p') && RowOk(db, r); }
  }

  lemma DatasetStepsKeepTables(db: Db, p: string, d: string)
    requires TableInv(db)
    ensures TableInv(ProjectEnsured(db, p)) && TableInv(DatasetAdded(db, p, d)) && TableInv(DatasetDeleted(db, p, d))
  {
    forall db' | db' in {ProjectEnsured(db, p), DatasetAdded(db, p, d), DatasetDeleted(db, p, d)}
      ensures TableInv(db')
    {
      forall q ensures RowOk(db', q) { assert RowOk(db, q); }
      forall q, q' ensures PairOk(db', q, q') { assert PairOk(db, q, q'); }
      forall p' ensures SlotOk(db', p') { assert SlotOk(db, p'); }
    }
  }

  lemma LogAppends(events: seq<Event>, e: Event, p: string, r: string)
    ensures Replay(events + [e], p) ==
            if e.project == p && e.run.Some? then Replayed(Replay(events, p), e.kind, e.run.value)
            else Replay(events, p)
    ensures Starts(events + [e], r) == Starts(events, r) + if e.run == Some(r) && e.kind == RunStarted then 1 else 0
  {
    assert (events + [e])[..|events|] == events;
  }

  /** The log of `db'` is `db`'s plus one event, and both logs agree with the tables they belong to. */
  lemma LoggedKeepsReplay(db: Db, db': Db, e: Event)
    requires ReplayInv(db) && StartInv(db) && db'.events == db.events + [e]
    requires forall p :: Tables(db', p) ==
               if e.project == p && e.run.Some? then Replayed(Tables(db, p), e.kind, e.run.value) else Tables(db, p)
    requires forall r :: r in db.runs && db.runs[r].status != Queued ==> r in db'.runs && db'.runs[r].status != Queued
    requires e.kind == RunStarted && e.run.Some? ==>
               && (e.run.value in db.runs ==> db.runs[e.run.value].status == Queued)
               && e.run.value in db'.runs && db'.runs[e.run.value].status != Queued
    ensures ReplayInv(db') && StartInv(db')
  {
    forall p ensures Replay(db'.events, p) == Tables(db', p) { LogAppends(db.events, e, p, ""); }
    forall r ensures Starts(db'.events, r) <= if r in db'.runs && db'.runs[r].status != Queued then 1 else 0 {
      LogAppends(db.events, e, "", r);
    }
  }

  lemma SubmitKeepsLifecycle(db: Db, id: string, spec: Spec, actor: string, key: string, prov: Provenance,
                             parent: Option<string>, now: int, q: string)
    requires MaySubmit(db, id, spec, actor, key)
    ensures Tables(Submitted(db, id, spec, actor, key, prov, parent, now), q) ==
            if q == spec.project then Replayed(Tables(db, q), RunQueued, id) else Tables(db, q)
  {
  }

  lemma SubmitKeepsReplay(db: Db, id: string, spec: Spec, actor: string, key: string, prov: Provenance,
                          parent: Option<string>, now: int)
    requires Inv(db)
    ensures ReplayInv(Submitted(db, id, spec, actor, key, prov, parent, now))
    ensures StartInv(Submitted(db, id, spec, actor, key, prov, parent, now))
  {
    hide Tables;
    if MaySubmit(db, id, spec, actor, key) {
      forall q
        ensures Tables(Submitted(db, id, spec, actor, key, prov, parent, now), q) ==
                if q == spec.project then Replayed(Tables(db, q), RunQueued, id) else Tables(db, q)
      {
        SubmitKeepsLifecycle(db, id, spec, actor, key, prov, parent, now, q);
      }
      LoggedKeepsReplay(db, Submitted(db, id, spec, actor, key, prov, parent, now),
                        Event(spec.project, Some(id), RunQueued));
    }
  }

  lemma ClaimKeepsReplay(db: Db, p: string, r: string, token: string, now: int)
    requires Inv(db) && p in db.projects && Candidate(db, p, None, r)
    ensures ReplayInv(Claimed(db, p, r, token, now)) && StartInv(Claimed(db, p, r, token, now))
  {
    LoggedKeepsReplay(db, Claimed(db, p, r, token, now), Event(p, Some(r), RunStarted));
  }

  lemma BeatKeepsReplay(db: Db, p: string, r: string, lease: Option<string>, now: int)
    requires Inv(db)
    ensures ReplayInv(Beaten(db, p, r, lease, now)) && StartInv(Beaten(db, p, r, lease, now))
  {
    forall q ensures Tables(Beaten(db, p, r, lease, now), q) == Tables(db, q) {
      BeatKeepsLifecycle(db, p, r, lease, now, q);
    }
    assert Beaten(db, p, r, lease, now).events == db.events;
  }

  lemma BeatKeepsLifecycle(db: Db, p: string, r: string, lease: Option<string>, now: int, q: string)
    ensures Tables(Beaten(db, p, r, lease, now), q) == Tables(db, q)
  {
  }

  lemma FinishKeepsLifecycle(db: Db, p: string, r: string, lease: Option<string>, status: Status,
                             manifest: Option<Manifest>, error: Option<string>, stale: Option<int>, q: string)
    requires MayFinish(db, p, r, lease, status, stale)
    ensures
      var db' := Finished(db, p, r, lease, status, manifest, error, stale);
      Tables(db', q) == if q == p then Replayed(Tables(db, q), RunEnded(db'.runs[r].status), r) else Tables(db, q)
  {
  }

  lemma FinishKeepsReplay(db: Db, p: string, r: string, lease: Option<string>, status: Status,
                          manifest: Option<Manifest>, error: Option<string>, stale: Option<int>)
    requires Inv(db)
    ensures ReplayInv(Finished(db, p, r, lease, status, manifest, error, stale))
    ensures StartInv(Finished(db, p, r, lease, status, manifest, error, stale))
  {
    hide Tables;
    if MayFinish(db, p, r, lease, status, stale) {
      var db' := Finished(db, p, r, lease, status, manifest, error, stale);
      forall q
        ensures Tables(db', q) == if q == p then Replayed(Tables(db, q), RunEnded(db'.runs[r].status), r)
            else Tables(db, q)
      {
        FinishKeepsLifecycle(db, p, r, lease, status, manifest, error, stale, q);
      }
      LoggedKeepsReplay(db, db', Event(p, Some(r), RunEnded(db'.runs[r].status)));
    }
  }

  lemma CancelKeepsLifecycle(db: Db, p: string, r: string, q: string)
    requires MayCancel(db, p, r)
    ensures Tables(CancelAsked(db, p, r), q) ==
            if q == p then Replayed(Tables(db, q), RunCancelRequested, r) else Tables(db, q)
  {
  }

  lemma CancelKeepsReplay(db: Db, p: string, r: string)
    requires Inv(db)
    ensures ReplayInv(CancelAsked(db, p, r)) && StartInv(CancelAsked(db, p, r))
  {
    hide Tables;
    if MayCancel(db, p, r) {
      forall q
        ensures Tables(CancelAsked(db, p, r), q) ==
                if q == p then Replayed(Tables(db, q), RunCancelRequested, r) else Tables(db, q)
      {
        CancelKeepsLifecycle(db, p, r, q);
      }
      LoggedKeepsReplay(db, CancelAsked(db, p, r), Event(p, Some(r), RunCancelRequested));
    }
  }

  lemma OtherStepsKeepReplay(db: Db, db': Db, e: Event)
    requires Inv(db) && db'.runs == db.runs && db'.events == db.events + [e] && e.kind.Other?
    requires forall p :: Slot(db', p) == Slot(db, p)
    ensures ReplayInv(db') && StartInv(db')
  {
    LoggedKeepsReplay(db, db', e);
  }

  // ---------------------------------------------------------------------------------------
  // Every interleaving
  // ---------------------------------------------------------------------------------------

  lemma StepKeepsInv(db: Db, s: Step, db': Db)
    requires Inv(db) && Next(db, s, db')
    ensures Inv(db')
  {
    match s
    case EnsureProject(p) =>
      DatasetStepsKeepTables(db, p, "");
      if db' != db { OtherStepsKeepReplay(db, db', Event(p, None, Other("project.created"))); }
    case AddDataset(p, d) =>
      DatasetStepsKeepTables(db, p, d);
      if db' != db { OtherStepsKeepReplay(db, db', Event(p, None, Other("dataset.registered"))); }
    case DeleteDataset(p, d) =>
      DatasetStepsKeepTables(db, p, d);
      if db' != db { OtherStepsKeepReplay(db, db', Event(p, None, Other("dataset.deleted"))); }
    case Submit(id, spec, actor, key, prov, parent, now) =>
      SubmitKeepsTables(db, id, spec, actor, key, prov, parent, now);
      SubmitKeepsReplay(db, id, spec, actor, key, prov, parent, now);
    case Claim(p, want, token, now) =>
      if db' != db {
        var r :| Oldest(db, p, want, r) && db' == Claimed(db, p, r, token, now);
        ClaimKeepsTables(db, p, r, token, now);
        ClaimKeepsReplay(db, p, r, token, now);
      }
    case Heartbeat(p, r, lease, now) =>
      BeatKeepsTables(db, p, r, lease, now);
      BeatKeepsReplay(db, p, r, lease, now);
    case Finish(p, r, lease, status, manifest, error, stale) =>
      FinishKeepsTables(db, p, r, lease, status, manifest, error, stale);
      FinishKeepsReplay(db, p, r, lease, status, manifest, error, stale);
    case Cancel(p, r) =>
      CancelKeepsTables(db, p, r);
      CancelKeepsReplay(db, p, r);
    case Record(p, run, name) =>
      forall q ensures RowOk(db', q) { assert RowOk(db, q); }
      forall q, q' ensures PairOk(db', q, q') { assert PairOk(db, q, q'); }
      forall p' ensures SlotOk(db', p') { assert SlotOk(db, p'); }
      OtherStepsKeepReplay(db, db', Event(p, run, Other(name)));
  }

  lemma {:induction false} TraceKeepsInv(dbs: seq<Db>, steps: seq<Step>)
    requires Trace(dbs, steps) && Inv(dbs[0])
    ensures forall i :: 0 <= i < |dbs| ==> Inv(dbs[i])
  {
    if steps != [] {
      var n := |steps| - 1;
      TraceKeepsInv(dbs[..n + 1], steps[..n]);
      assert Inv(dbs[..n + 1][n]);
      StepKeepsInv(dbs[n], steps[n], dbs[n + 1]);
    }
  }
}
