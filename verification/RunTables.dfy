/** The managed-run tables of `buffdata/runs/store.py` and the transactions over them.

    One committed transaction is one atomic step. Times are integers read from one clock;
    a lease token is drawn fresh (`issued` remembers every token ever drawn); SHA-256 digests
    are taken as injective, so a request hash is its spec and an idempotency hash its triple. */
module RunTables {
  import opened Wrappers

  datatype Status = Queued | Running | Succeeded | Failed | Cancelled | Interrupted {
    predicate Terminal() { !Queued? && !Running? }
  }

  datatype Spec = Spec(project: string, dataset: string, validation: Option<string>,
                       requireGain: bool, settings: string)

  /** What a run was submitted against: code and policy fingerprints, and input hashes. */
  datatype Provenance = Provenance(implementation: string, inputs: string)

  /** What a finished child may leave behind as its candidate manifest: a falsy JSON value
      (such as an empty object), some other value that is no manifest, or a manifest. */
  datatype Manifest =
    | Falsy
    | NoManifest
    | Manifest(runId: string, project: string, spec: Spec, provenance: Provenance,
               gateAccepted: bool, artifacts: map<string, string>)

  datatype Run = Run(project: string, actor: string, key: string, spec: Spec, provenance: Provenance,
                     parent: Option<string>, created: int, serial: nat,
                     status: Status, cancelRequested: bool,
                     lease: Option<string>, heartbeat: Option<int>,
                     manifest: Option<Manifest>, error: Option<string>)

  datatype Dataset = Dataset(project: string, deleted: bool)

  datatype Kind = RunQueued | RunStarted | RunCancelRequested | RunEnded(status: Status) | Other(name: string)

  datatype Event = Event(project: string, run: Option<string>, kind: Kind)

  /** The whole database. `projects` maps a project to its `active_run` slot. */
  datatype Db = Db(projects: map<string, Option<string>>, datasets: map<string, Dataset>,
                   runs: map<string, Run>, events: seq<Event>, issued: set<string>)

  datatype Error = RunConflict | KeyError | NoResultFound | IntegrityError | Refused

  const STALE_SECONDS := 120

  // ---------------------------------------------------------------------------------------
  // The transactions, as functions from database to database
  // ---------------------------------------------------------------------------------------

  function Log(db: Db, project: string, run: Option<string>, kind: Kind): Db {
    db.(events := db.events + [Event(project, run, kind)])
  }

  predicate Live(db: Db, project: string, dataset: string) {
    dataset in db.datasets && db.datasets[dataset] == Dataset(project, false)
  }

  predicate RefersTo(spec: Spec, dataset: string) {
    spec.dataset == dataset || spec.validation == Some(dataset)
  }

  predicate SameKey(a: Run, project: string, actor: string, key: string) {
    a.project == project && a.actor == actor && a.key == key
  }

  function ProjectEnsured(db: Db, p: string): Db {
    if p in db.projects then db else Log(db.(projects := db.projects[p := None]), p, None, Other("project.created"))
  }

  function DatasetAdded(db: Db, p: string, d: string): Db {
    if d in db.datasets then db
    else Log(db.(datasets := db.datasets[d := Dataset(p, false)]), p, None, Other("dataset.registered"))
  }

  predicate MayDelete(db: Db, p: string, d: string) {
    p in db.projects && forall r :: r in db.runs && db.runs[r].project == p ==> !RefersTo(db.runs[r].spec, d)
  }

  function DatasetDeleted(db: Db, p: string, d: string): Db {
    if !MayDelete(db, p, d) then db
    else
      var datasets := if d in db.datasets && db.datasets[d].project == p
                      then db.datasets[d := Dataset(p, true)] else db.datasets;
      Log(db.(datasets := datasets), p, None, Other("dataset.deleted"))
  }

  predicate KeyTaken(db: Db, project: string, actor: string, key: string) {
    exists r :: r in db.runs && SameKey(db.runs[r], project, actor, key)
  }

  predicate MaySubmit(db: Db, id: string, spec: Spec, actor: string, key: string) {
    && !KeyTaken(db, spec.project, actor, key)
    && Live(db, spec.project, spec.dataset)
    && (spec.validation.Some? ==> Live(db, spec.project, spec.validation.value))
    && id !in db.runs
  }

  function NewRun(db: Db, spec: Spec, actor: string, key: string, provenance: Provenance, parent: Option<string>,
                  now: int): Run
  {
    Run(spec.project, actor, key, spec, provenance, parent, now, |db.runs|, Queued, false, None, None, None, None)
  }

  function Submitted(db: Db, id: string, spec: Spec, actor: string, key: string, provenance: Provenance,
                     parent: Option<string>, now: int): Db
  {
    if !MaySubmit(db, id, spec, actor, key) then db
    else Log(db.(runs := db.runs[id := NewRun(db, spec, actor, key, provenance, parent, now)]),
             spec.project, Some(id), RunQueued)
  }

  predicate Candidate(db: Db, p: string, want: Option<string>, r: string) {
    r in db.runs && db.runs[r].project == p && db.runs[r].status == Queued && (want.Some? ==> want.value == r)
  }

  /** `ORDER BY created LIMIT 1`; ties are broken arbitrarily. */
  predicate Oldest(db: Db, p: string, want: Option<string>, r: string) {
    Candidate(db, p, want, r) &&
    forall q :: q in db.runs && Candidate(db, p, want, q) ==> db.runs[r].created <= db.runs[q].created
  }

  function Claimed(db: Db, p: string, r: string, lease: string, now: int): Db
    requires r in db.runs
  {
    Log(db.(runs := db.runs[r := db.runs[r].(status := Running, lease := Some(lease), heartbeat := Some(now))],
            projects := db.projects[p := Some(r)],
            issued := db.issued + {lease}),
        p, Some(r), RunStarted)
  }

  /** `claim` committed as `db'`: nothing when the slot is taken or nothing is queued. */
  ghost predicate ClaimStep(db: Db, p: string, want: Option<string>, lease: string, now: int, db': Db) {
    if p !in db.projects || db.projects[p].Some? then db' == db
    else (
      || (db' == db && forall q :: q in db.runs ==> !Candidate(db, p, want, q))
      || (exists r :: Oldest(db, p, want, r) && db' == Claimed(db, p, r, lease, now)))
  }

  /** The row lock every lease holder's statement selects on. A missing token matches
      `lease IS NULL`. */
  predicate Holds(db: Db, p: string, r: string, lease: Option<string>) {
    r in db.runs && db.runs[r].project == p && db.runs[r].lease == lease && db.runs[r].status == Running
  }

  function Beaten(db: Db, p: string, r: string, lease: Option<string>, now: int): Db {
    if Holds(db, p, r, lease) then db.(runs := db.runs[r := db.runs[r].(heartbeat := Some(now))]) else db
  }

  predicate MayFinish(db: Db, p: string, r: string, lease: Option<string>, status: Status, staleBefore: Option<int>) {
    && status.Terminal()
    && p in db.projects
    && Holds(db, p, r, lease)
    && (staleBefore.Some? ==> db.runs[r].heartbeat.GetOr(0) < staleBefore.value)
  }

  function Finished(db: Db, p: string, r: string, lease: Option<string>, status: Status,
                    manifest: Option<Manifest>, error: Option<string>, staleBefore: Option<int>): Db
  {
    if !MayFinish(db, p, r, lease, status, staleBefore) then db
    else
      var final := if db.runs[r].cancelRequested then Cancelled else status;
      Log(db.(runs := db.runs[r := db.runs[r].(status := final, lease := None, error := error,
                                               manifest := if final == Succeeded then manifest else None)],
              projects := db.projects[p := None]),
          p, Some(r), RunEnded(final))
  }

  predicate MayCancel(db: Db, p: string, r: string) {
    p in db.projects && r in db.runs && db.runs[r].project == p && !db.runs[r].status.Terminal()
  }

  function CancelAsked(db: Db, p: string, r: string): Db {
    if !MayCancel(db, p, r) then db
    else
      var row := db.runs[r];
      Log(db.(runs := db.runs[r := row.(cancelRequested := true,
                                        status := if row.status == Queued then Cancelled else Running)]),
          p, Some(r), RunCancelRequested)
  }

  // ---------------------------------------------------------------------------------------
  // Runs of the system: any interleaving of the transactions
  // ---------------------------------------------------------------------------------------

  datatype Step =
    | EnsureProject(p: string)
    | AddDataset(p: string, d: string)
    | DeleteDataset(p: string, d: string)
    | Submit(id: string, spec: Spec, actor: string, key: string, provenance: Provenance, parent: Option<string>,
        now: int)
    | Claim(p: string, want: Option<string>, token: string, now: int)
    | Heartbeat(p: string, r: string, lease: Option<string>, now: int)
    | Finish(p: string, r: string, lease: Option<string>, status: Status, manifest: Option<Manifest>,
             error: Option<string>, staleBefore: Option<int>)
    | Cancel(p: string, r: string)
    | Record(p: string, run: Option<string>, name: string)

  /** A parent named at submission is a run of the same project (`RunService.submit` looks it up first). */
  predicate ParentKnown(db: Db, project: string, parent: Option<string>) {
    parent.Some? ==> parent.value in db.runs && db.runs[parent.value].project == project
  }

  ghost predicate Next(db: Db, s: Step, db': Db) {
    match s
    case EnsureProject(p) => db' == ProjectEnsured(db, p)
    case AddDataset(p, d) => db' == DatasetAdded(db, p, d)
    case DeleteDataset(p, d) => db' == DatasetDeleted(db, p, d)
    case Submit(id, spec, actor, key, prov, parent, now) =>
      ParentKnown(db, spec.project, parent) && db' == Submitted(db, id, spec, actor, key, prov, parent, now)
    case Claim(p, want, token, now) => token !in db.issued && ClaimStep(db, p, want, token, now, db')
    case Heartbeat(p, r, lease, now) => db' == Beaten(db, p, r, lease, now)
    case Finish(p, r, lease, status, manifest, error, stale) =>
      db' == Finished(db, p, r, lease, status, manifest, error, stale)
    case Cancel(p, r) => db' == CancelAsked(db, p, r)
    case Record(p, run, name) => db' == Log(db, p, run, Other(name))
  }

  const EMPTY_DB := Db(map[], map[], map[], [], {})

  /** `dbs` is a history of the database, `steps[i]` leading from `dbs[i]` to `dbs[i+1]`. */
  ghost predicate Trace(dbs: seq<Db>, steps: seq<Step>) {
    |dbs| == |steps| + 1 && forall i :: 0 <= i < |steps| ==> Next(dbs[i], steps[i], dbs[i + 1])
  }

  // ---------------------------------------------------------------------------------------
  // Replaying the event log
  // ---------------------------------------------------------------------------------------

  /** What a reader of one project's events knows: each run's status and cancel flag, and the slot. */
  datatype Lifecycle = Lifecycle(runs: map<string, (Status, bool)>, active: Option<string>)

  function Replayed(view: Lifecycle, kind: Kind, r: string): Lifecycle {
    match kind
    case RunQueued => view.(runs := view.runs[r := (Queued, false)])
    case RunStarted =>
      Lifecycle(view.runs[r := (Running, r in view.runs && view.runs[r].1)], Some(r))
    case RunCancelRequested =>
      var status := if r in view.runs then view.runs[r].0 else Queued;
      view.(runs := view.runs[r := (if status == Queued then Cancelled else status, true)])
    case RunEnded(status) =>
      Lifecycle(view.runs[r := (status, r in view.runs && view.runs[r].1)], None)
    case Other(_) => view
  }

  /** Fold one project's events, oldest first, starting from nothing. */
  function Replay(events: seq<Event>, p: string): Lifecycle {
    if events == [] then Lifecycle(map[], None)
    else
      var view := Replay(events[..|events| - 1], p);
      var e := events[|events| - 1];
      if e.project == p && e.run.Some? then Replayed(view, e.kind, e.run.value) else view
  }

  function Slot(db: Db, p: string): Option<string> {
    if p in db.projects then db.projects[p] else None
  }

  /** The same facts read from the tables. */
  function Tables(db: Db, p: string): Lifecycle {
    Lifecycle(map r | r in db.runs && db.runs[r].project == p :: (db.runs[r].status, db.runs[r].cancelRequested),
              Slot(db, p))
  }

  function Starts(events: seq<Event>, r: string): nat {
    if events == [] then 0
    else Starts(events[..|events| - 1], r) +
         (if events[|events| - 1].run == Some(r) && events[|events| - 1].kind == RunStarted then 1 else 0)
  }

  // ---------------------------------------------------------------------------------------
  // The invariant
  // ---------------------------------------------------------------------------------------

  predicate RunsIn(db: Db, p: string, r: string) {
    r in db.runs && db.runs[r].project == p && db.runs[r].status == Running
  }

  /** A run holds a lease exactly while it is running, and then it fills its project's slot. */
  predicate LeaseOk(db: Db, r: string) requires r in db.runs {
    var row := db.runs[r];
    && (row.status == Running <==> row.lease.Some?)
    && (row.lease.Some? ==> row.lease.value in db.issued && row.heartbeat.Some? && Slot(db, row.project) == Some(r))
  }

  /** No run refers to a deleted dataset, or to one of another project. */
  predicate DatasetsOk(db: Db, r: string) requires r in db.runs {
    var row := db.runs[r];
    && row.spec.project == row.project
    && Live(db, row.project, row.spec.dataset)
    && (row.spec.validation.Some? ==> Live(db, row.project, row.spec.validation.value))
  }

  /** A parent is an older row of the same project. */
  predicate ParentOk(db: Db, r: string) requires r in db.runs {
    var row := db.runs[r];
    && row.serial < |db.runs|
    && (row.parent.Some? ==>
          && row.parent.value in db.runs
          && db.runs[row.parent.value].project == row.project
          && db.runs[row.parent.value].serial < row.serial)
  }

  /** A cancel that committed while the run was unfinished decides its outcome. */
  predicate OutcomeOk(db: Db, r: string) requires r in db.runs {
    var row := db.runs[r];
    && (row.manifest.Some? ==> row.status == Succeeded)
    && (row.cancelRequested ==> row.status == Running || row.status == Cancelled)
  }

  predicate RowOk(db: Db, r: string) {
    r in db.runs ==> LeaseOk(db, r) && DatasetsOk(db, r) && ParentOk(db, r) && OutcomeOk(db, r)
  }

  /** Two different rows share neither a lease nor an idempotency key. */
  predicate PairOk(db: Db, q: string, r: string) {
    q in db.runs && r in db.runs && q != r ==>
      && !(db.runs[q].lease.Some? && db.runs[q].lease == db.runs[r].lease)
      && !SameKey(db.runs[q], db.runs[r].project, db.runs[r].actor, db.runs[r].key)
  }

  /** A filled slot names a running run of that project. */
  predicate SlotOk(db: Db, p: string) {
    Slot(db, p).Some? ==> RunsIn(db, p, Slot(db, p).value)
  }

  ghost predicate ReplayInv(db: Db) {
    forall p :: Replay(db.events, p) == Tables(db, p)
  }

  ghost predicate StartInv(db: Db) {
    forall r :: Starts(db.events, r) <= if r in db.runs && db.runs[r].status != Queued then 1 else 0
  }

  ghost predicate TableInv(db: Db) {
    && (forall r {:trigger RowOk(db, r)} :: RowOk(db, r))
    && (forall q, r {:trigger PairOk(db, q, r)} :: PairOk(db, q, r))
    && (forall p {:trigger SlotOk(db, p)} :: SlotOk(db, p))
  }

  ghost predicate Inv(db: Db) {
    TableInv(db) && ReplayInv(db) && StartInv(db)
  }
}
