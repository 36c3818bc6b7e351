/** `RunService`: operations of several transactions each, with everyone else's in between. */
module RunService {
  import opened Wrappers
  import opened RunTables
  import opened RunTheorems
  import Store

  // ---------------------------------------------------------------------------------------
  // submit and resume
  // ---------------------------------------------------------------------------------------

  /** What `submit` finds outside the store: whether the runtime may be used at all, and which registered datasets
      still have the bytes they were registered with and are admissible under the policy. */
  datatype Site = Site(runtimeApproved: bool, intact: set<string>)

  /** One named dataset: looked up in its own transaction, then its file checked. */
  method CheckDataset(store: Store.RunStore, site: Site, p: string, d: string) returns (error: Option<Error>)
    requires Inv(store.Db())
    modifies store
    ensures Inv(store.Db()) && Reaches(old(store.Db()), store.Db(), None)
    ensures error == if !Live(store.Db(), p, d) then Some(KeyError) else if d !in site.intact then Some(RunConflict)
        else None
  {
    ghost var before := store.Db();
    store.Interfere(None);
    ReachesSafely(before, store.Db(), None);
    var found := store.FindDataset(p, d);
    if found.Failure? { return Some(KeyError); }
    if d !in site.intact { return Some(RunConflict); }
    return None;
  }

  /** The policy, the parent, the runtime and each dataset are looked up first, each on its own, and the row is
      inserted in a later transaction; rows are never deleted, so every stored parent link still names a run of the
      project. `mid` is the state in which a lookup fails, or the one that the insert finds. */
  method Submit(store: Store.RunStore, site: Site, id: string, spec: Spec, actor: string, key: string,
                provenance: Provenance, parent: Option<string>, now: int)
    returns (out: Result<string, Error>, ghost mid: Db, ghost inserting: bool)
    requires Inv(store.Db())
    modifies store
    ensures Reaches(old(store.Db()), mid, None)
    ensures Inv(mid) && Inv(store.Db()) && Reaches(old(store.Db()), store.Db(), None)
    ensures !inserting ==> out.Failure? && store.Db() == mid
    ensures inserting ==>
      && store.Db() == Submitted(mid, id, spec, actor, key, provenance, parent, now)
      && SubmitAnswer(mid, id, spec, actor, key, store.Db(), out)
      && spec.project in mid.projects && ParentKnown(mid, spec.project, parent)
      && site.runtimeApproved && spec.dataset in site.intact
      && (spec.validation.Some? ==> spec.validation.value in site.intact)
    ensures !inserting ==> out.error in {Refused, RunConflict, KeyError}
    ensures !inserting && out == Failure(Refused) ==> !site.runtimeApproved
    ensures !inserting && out == Failure(RunConflict) ==> exists d :: RefersTo(spec, d) && d !in site.intact
    ensures !inserting && out == Failure(KeyError) ==>
      || spec.project !in old(store.projects) || !ParentKnown(old(store.Db()), spec.project, parent)
      || exists d :: RefersTo(spec, d) && !Live(mid, spec.project, d)
  {
    ghost var before := store.Db();
    ReachesNothing(before, None);
    mid, inserting := before, false;
    var policy := store.FindProject(spec.project);
    if policy.Failure? { return Failure(policy.error), mid, false; }
    store.Interfere(None);
    mid := store.Db();
    ReachesSafely(before, mid, None);
    if parent.Some? {
      assert RunEvolves(before, mid, parent.value);
      var found := store.Get(spec.project, parent.value);
      if found.Failure? { return Failure(KeyError), mid, false; }
    }
    if !site.runtimeApproved { return Failure(Refused), mid, false; }
    ghost var looked := store.Db();
    var error := CheckDataset(store, site, spec.project, spec.dataset);
    mid := store.Db();
    ReachesTransitive(before, looked, mid, None);
    if error.Some? {
      assert RefersTo(spec, spec.dataset);
      return Failure(error.value), mid, false;
    }
    ghost var first := store.Db();
    if spec.validation.Some? {
      error := CheckDataset(store, site, spec.project, spec.validation.value);
      mid := store.Db();
      ReachesTransitive(before, first, mid, None);
      if error.Some? {
        assert RefersTo(spec, spec.validation.value);
        return Failure(error.value), mid, false;
      }
    }
    ghost var checked := store.Db();
    if spec.validation.Some? { ReachesTransitive(looked, first, checked, None); }
    store.Interfere(None);
    mid := store.Db();
    ReachesTransitive(before, checked, mid, None);
    ReachesSafely(looked, checked, None);
    ReachesSafely(checked, mid, None);
    assert parent.Some? ==> RunEvolves(looked, checked, parent.value) && RunEvolves(checked, mid, parent.value);
    out := store.Submit(id, spec, actor, key, provenance, parent, now);
    inserting := true;
    ReachesStep(mid, Step.Submit(id, spec, actor, key, provenance, parent, now), store.Db(), None);
    ReachesTransitive(before, mid, store.Db(), None);
    ReachesSafely(before, store.Db(), None);
  }

  /** Under a key that no row has, an answer is the new row, queued and carrying everything it was submitted with. */
  lemma FreshAnswerIsNew(db: Db, id: string, spec: Spec, actor: string, key: string, provenance: Provenance,
                         parent: Option<string>, now: int, db': Db, answer: Result<string, Error>)
    requires SubmitAnswer(db, id, spec, actor, key, db', answer)
    requires db' == Submitted(db, id, spec, actor, key, provenance, parent, now)
    requires answer.Success? && !KeyTaken(db, spec.project, actor, key)
    ensures answer.value == id && id !in db.runs && id in db'.runs
    ensures db'.runs[id] == NewRun(db, spec, actor, key, provenance, parent, now)
  {
  }

  /** The row the answer names, whether new or found under the key. */
  lemma AnswerHasSpec(db: Db, id: string, spec: Spec, actor: string, key: string, provenance: Provenance,
                      parent: Option<string>, now: int, db': Db, answer: Result<string, Error>)
    requires SubmitAnswer(db, id, spec, actor, key, db', answer)
    requires db' == Submitted(db, id, spec, actor, key, provenance, parent, now)
    requires answer.Success?
    ensures answer.value in db'.runs && db'.runs[answer.value].spec == spec
    ensures db'.runs[answer.value].project == spec.project
  {
  }

  predicate Resumable(db: Db, p: string, r: string) {
    r in db.runs && db.runs[r].project == p && db.runs[r].status in {Failed, Cancelled, Interrupted}
  }

  /** The run was held and silent at the unlocked read, and still held and silent in the state that the finish found. */
  predicate Stale(read: Db, found: Db, p: string, r: string, t1: int, t2: int) {
    && r in read.runs && Holds(read, p, r, read.runs[r].lease) && Holds(found, p, r, read.runs[r].lease)
    && t1 - read.runs[r].heartbeat.GetOr(0) >= STALE_SECONDS
    && found.runs[r].heartbeat.GetOr(0) < t2 - STALE_SECONDS
  }

  /** A run that has ended without success can be resumed, and one that is running when it turns out stale. */
  predicate Endable(before: Db, read: Db, found: Db, p: string, r: string, t1: int, t2: int) {
    || Resumable(before, p, r)
    || (r in before.runs && before.runs[r].project == p && before.runs[r].status == Running
        && Stale(read, found, p, r, t1, t2))
  }

  /** The run to be resumed, stopped first if it is running but stale: `read` is the state in which staleness is looked
      up, `found` the one that the finish finds. */
  method EndPrevious(store: Store.RunStore, p: string, r: string, t1: int, t2: int, ghost t3: int)
    returns (out: Result<Run, Error>, ghost read: Db, ghost found: Db)
    requires Inv(store.Db()) && t1 <= t2 <= t3
    modifies store
    ensures Reaches(old(store.Db()), read, None) && Reaches(read, found, None)
    ensures out.Success? <==> Endable(old(store.Db()), read, found, p, r, t1, t2)
    ensures Inv(store.Db()) && Reaches(old(store.Db()), store.Db(), None)
    ensures out.Success? ==>
        out.value.status in {Failed, Cancelled, Interrupted} && r in store.runs && store.runs[r] == out.value
    ensures out.Success? ==> out.value.project == p
  {
    ghost var db0 := store.Db();
    ReachesNothing(db0, None);
    read, found := db0, db0;
    var previous := store.Get(p, r);
    if previous.Failure? { return Failure(previous.error), read, found; }
    var row := previous.value;
    store.Interfere(None);
    ghost var db1 := store.Db();
    ReachesSafely(db0, db1, None);
    assert RunEvolves(db0, db1, r) && RowOk(db1, r);
    read, found := db1, db1;
    ReachesNothing(db1, None);
    if row.status == Running {
      previous, found := store.InterruptStale(p, r, t1, t2, t3);
      ReachesTransitive(db0, db1, store.Db(), None);
      if previous.Failure? { return Failure(previous.error), read, found; }
      row := previous.value;
    }
    if row.status !in {Failed, Cancelled, Interrupted} { return Failure(RunConflict), read, found; }
    return Success(row), read, found;
  }

  /** The run has ended without success and was submitted as `row` was. */
  predicate Ended(db: Db, r: string, row: Run) {
    r in db.runs && db.runs[r] == row && row.status in {Failed, Cancelled, Interrupted}
  }

  lemma EndedStays(a: Db, b: Db, r: string, row: Run)
    requires Inv(a) && Reaches(a, b, None) && Ended(a, r, row)
    ensures Inv(b) && Ended(b, r, row)
  {
    ReachesSafely(a, b, None);
    assert RunEvolves(a, b, r);
  }

  /** The row that answered a submission, later on. */
  lemma AnswerStays(a: Db, b: Db, q: string)
    requires Inv(a) && Reaches(a, b, None) && q in a.runs
    ensures Inv(b) && q in b.runs && b.runs[q].spec == a.runs[q].spec && b.runs[q].parent == a.runs[q].parent
    ensures b.runs[q].project == a.runs[q].project && b.runs[q].provenance == a.runs[q].provenance
  {
    ReachesSafely(a, b, None);
    assert RunEvolves(a, b, q);
  }

  /** Undo a submission whose inputs turned out to differ: the row ends, or its worker is told to stop. */
  method Withdraw(store: Store.RunStore, p: string, q: string)
    requires Inv(store.Db()) && q in store.runs && store.runs[q].project == p
    modifies store
    ensures Inv(store.Db()) && Reaches(old(store.Db()), store.Db(), None)
    ensures p in old(store.projects) ==>
      q in store.runs && (store.runs[q].cancelRequested || store.runs[q].status.Terminal())
  {
    ghost var before := store.Db();
    var _ := store.Cancel(p, q);
    ReachesStep(before, Step.Cancel(p, q), store.Db(), None);
    ReachesSafely(before, store.Db(), None);
  }

  /** What a submission that inserted nothing was refused for: a run-time or a dataset that may not be used, a key under
      which another spec was submitted, or an id that is taken. */
  ghost predicate Refusal(db: Db, site: Site, id: string, spec: Spec, actor: string, key: string) {
    || !site.runtimeApproved
    || (!KeyTaken(db, spec.project, actor, key) && id in db.runs)
    || (exists d :: RefersTo(spec, d) && d !in site.intact)
    || exists q :: q in db.runs && SameKey(db.runs[q], spec.project, actor, key) && db.runs[q].spec != spec
  }

  /** A submission with a parent that exists, in a project that exists, is refused for one of these reasons only. */
  lemma RefusedFor(a: Db, site: Site, id: string, spec: Spec, actor: string, key: string, provenance: Provenance,
                   r: string, now: int, mid: Db, after: Db, answer: Result<string, Error>, inserting: bool)
    requires Inv(a) && Inv(mid) && r in a.runs && a.runs[r].spec == spec && Reaches(a, mid, None)
    requires answer.Failure?
    requires inserting ==> SubmitAnswer(mid, id, spec, actor, key, after, answer)
    requires inserting ==> after == Submitted(mid, id, spec, actor, key, provenance, Some(r), now)
    requires !inserting ==> after == mid
    requires !inserting && spec.project in a.projects && site.runtimeApproved ==>
               exists d :: RefersTo(spec, d) && (d !in site.intact || !Live(mid, spec.project, d))
    ensures after == mid && (spec.project in a.projects ==> Refusal(mid, site, id, spec, actor, key))
  {
    AnswerStays(a, mid, r);
    assert RowOk(mid, r);
  }

  /** A resumed run has the old spec and inputs, and the old run has ended without success and, its status being
      terminal, never runs again. When no row has the key, which is drawn at random, the answer is a new row, inserted
      queued, whose parent is the old run. A row whose inputs turn out to differ is answered by nobody and left ended
      or told to stop. Others may run between any two of the transactions: `mid` is the state that the submission finds
      and `after` the one it leaves. A call that submits no row changes nothing itself, once the old run is ended. */
  method Resume(store: Store.RunStore, site: Site, p: string, r: string, t1: int, t2: int, ghost t3: int,
                current: Provenance, id: string, actor: string, key: string, now: int)
    returns (out: Result<string, Error>, ghost read: Db, ghost found: Db, ghost mid: Db, ghost after: Db,
             ghost stray: Option<string>)
    requires Inv(store.Db()) && t1 <= t2 <= t3
    modifies store
    ensures Inv(store.Db()) && Reaches(old(store.Db()), store.Db(), None)
    ensures Reaches(old(store.Db()), mid, None) && Reaches(after, store.Db(), None)
    ensures out.Success? || stray.Some? ==>
      && r in mid.runs && mid.runs[r].status in {Failed, Cancelled, Interrupted}
      && after == Submitted(mid, id, mid.runs[r].spec, actor, key, current, Some(r), now)
      && SubmitAnswer(mid, id, mid.runs[r].spec, actor, key, after, if out.Success? then out else Success(stray.value))
    ensures out.Success? ==>
      && r in store.runs && store.runs[r].status in {Failed, Cancelled, Interrupted}
      && store.runs[r].provenance.implementation == current.implementation
      && out.value in store.runs && store.runs[out.value].spec == store.runs[r].spec
      && store.runs[out.value].provenance.inputs == store.runs[r].provenance.inputs
    ensures out.Success? && !KeyTaken(mid, p, actor, key) ==>
      && out.value == id && id !in mid.runs && id in after.runs
      && after.runs[id] == NewRun(mid, mid.runs[r].spec, actor, key, current, Some(r), now)
      && store.runs[id].parent == Some(r)
    ensures stray.Some? ==>
      && out == Failure(RunConflict) && r in store.runs && stray.value in store.runs
      && store.runs[stray.value].provenance.inputs != store.runs[r].provenance.inputs
      && (store.runs[stray.value].cancelRequested || store.runs[stray.value].status.Terminal())
    ensures out.Failure? && stray.None? ==> after == mid == store.Db()
    ensures Reaches(old(store.Db()), read, None) && Reaches(read, found, None)
    ensures
      && out.Failure? && stray.None? && p in old(store.projects)
      && Endable(old(store.Db()), read, found, p, r, t1, t2) ==>
      || old(store.runs)[r].provenance.implementation != current.implementation
      || Refusal(mid, site, id, old(store.runs)[r].spec, actor, key)
  {
    ghost var db0 := store.Db();
    ReachesNothing(db0, None);
    stray := None;
    var previous;
    previous, read, found := EndPrevious(store, p, r, t1, t2, t3);
    ghost var db1 := store.Db();
    mid, after := db1, db1;
    ReachesNothing(db1, None);
    if previous.Failure? { return Failure(previous.error), read, found, mid, after, None; }
    var row := previous.value;
    if r in db0.runs { AnswerStays(db0, db1, r); }
    if current.implementation != row.provenance.implementation {
      return Failure(RunConflict), read, found, mid, after, None;
    }
    assert RowOk(db1, r);
    ghost var inserting;
    out, mid, inserting := Submit(store, site, id, row.spec, actor, key, current, Some(r), now);
    after := store.Db();
    ReachesNothing(after, None);
    ReachesTransitive(db0, db1, mid, None);
    ReachesTransitive(db0, db1, after, None);
    if out.Failure? {
      ReachesSafely(db0, db1, None);
      RefusedFor(db1, site, id, row.spec, actor, key, current, r, now, mid, after, out, inserting);
      return out, read, found, mid, after, None;
    }
    EndedStays(db1, mid, r, row);
    EndedStays(db1, after, r, row);
    AnswerHasSpec(mid, id, row.spec, actor, key, current, Some(r), now, after, out);
    if !KeyTaken(mid, p, actor, key) {
      FreshAnswerIsNew(mid, id, row.spec, actor, key, current, Some(r), now, after, out);
    }
    store.Interfere(None);
    ghost var db3 := store.Db();
    ReachesTransitive(db0, after, db3, None);
    ReachesSafely(after, db3, None);
    EndedStays(after, db3, r, row);
    AnswerStays(after, db3, out.value);
    if store.runs[out.value].provenance.inputs != row.provenance.inputs {
      stray := Some(out.value);
      Withdraw(store, p, out.value);
      ghost var db4 := store.Db();
      ReachesTransitive(db0, db3, db4, None);
      ReachesTransitive(after, db3, db4, None);
      EndedStays(db3, db4, r, row);
      AnswerStays(db3, db4, stray.value);
      return Failure(RunConflict), read, found, mid, after, stray;
    }
  }
}
