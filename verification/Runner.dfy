/** The local runner: a claimed run, its child process and what becomes of them. */
module Runner {
  import opened Wrappers
  import opened RunTables
  import opened RunTheorems
  import Store

  // ---------------------------------------------------------------------------------------
  // Publishing a manifest
  // ---------------------------------------------------------------------------------------

  predicate Truthy(m: Manifest) { !m.Falsy? }

  /** `verify_manifest`: identity, provenance, the accuracy gate, and every artifact's hash on disk. */
  predicate Verified(run: Run, p: string, r: string, m: Manifest, disk: map<string, string>) {
    && m.Manifest?
    && m.runId == r && m.project == p && m.spec == run.spec
    && m.provenance == run.provenance
    && (m.spec.requireGain ==> m.gateAccepted)
    && {"output", "rejected", "report"} <= m.artifacts.Keys
    && forall a :: a in m.artifacts ==> a in disk && disk[a] == m.artifacts[a]
  }

  /** What the executor leaves behind as `candidate-manifest.json`. */
  datatype Candidate = Unreadable | Null | Wrote(manifest: Manifest)

  /** The run reached a terminal status and no longer fills its project's slot. */
  predicate Settled(db: Db, p: string, r: string) {
    r in db.runs && db.runs[r].project == p && db.runs[r].status.Terminal() && Slot(db, p) != Some(r)
  }

  lemma SettledStays(a: Db, b: Db, p: string, r: string, held: Option<string>)
    requires Inv(a) && Reaches(a, b, held) && Settled(a, p, r)
    ensures Inv(b) && Settled(b, p, r) && b.runs[r] == a.runs[r]
  {
    ReachesSafely(a, b, held);
    assert RunEvolves(a, b, r) && SlotOk(b, p);
  }

  lemma EndedIsSettled(db: Db, p: string, r: string)
    requires Inv(db) && r in db.runs && db.runs[r].project == p && db.runs[r].status.Terminal()
    ensures Settled(db, p, r)
  {
    assert SlotOk(db, p);
  }

  // ---------------------------------------------------------------------------------------
  // supervise
  // ---------------------------------------------------------------------------------------

  /** What a child is sent, and what waiting for it with a timeout came to. */
  datatype Signal = Asked | Waited(seconds: nat, exited: bool) | Killed | Reaped

  /** The child process, as the operating system keeps it: a terminate request may be ignored, a kill may not. `polls`
      records what each poll answered, `sent` every signal and wait. */
  class Child {
    var alive: bool
    var killed: bool
    var code: int
    ghost var polls: seq<Option<int>>
    ghost var sent: seq<Signal>

    constructor ()
      ensures alive && !killed && polls == [] && sent == []
    {
      alive, killed, code, polls, sent := true, false, 0, [], [];
    }

    /** `poll()`: the exit code, if the child has exited by now. */
    method Poll() returns (answer: Option<int>)
      modifies this`alive, this`code, this`polls
      ensures answer == (if alive then None else Some(code)) && polls == old(polls) + [answer]
      ensures !old(alive) ==> !alive && code == old(code)
    {
      if alive { Exit(); }
      answer := if alive then None else Some(code);
      polls := polls + [answer];
    }

    /** The child may exit, with any code. */
    method Exit()
      modifies this`alive, this`code
      ensures alive ==> old(alive)
    {
      var exits: bool := *;
      if exits {
        var any: int := *;
        alive, code := false, any;
      }
    }

    method Terminate()
      modifies this`alive, this`code, this`sent
      ensures alive ==> old(alive)
      ensures sent == old(sent) + [Asked]
    {
      if alive { Exit(); }
      sent := sent + [Asked];
    }

    /** `wait(timeout)`: whether the child has exited in time. */
    method WaitFor(seconds: nat) returns (exited: bool)
      modifies this`alive, this`code, this`sent
      ensures exited == !alive && (alive ==> old(alive))
      ensures sent == old(sent) + [Waited(seconds, exited)]
    {
      if alive { Exit(); }
      exited := !alive;
      sent := sent + [Waited(seconds, exited)];
    }

    method Kill()
      modifies this`killed, this`sent
      ensures killed && sent == old(sent) + [Killed]
    {
      killed, sent := true, sent + [Killed];
    }

    /** `wait()`, which returns only when the child is dead. */
    method Reap()
      requires killed || !alive
      modifies this`alive, this`sent
      ensures !alive && sent == old(sent) + [Reaped]
    {
      alive, sent := false, sent + [Reaped];
    }
  }

  /** The `finally` block: ask, wait 30 s, then kill. A child that has exited is left alone, and one that exits in time
      is not killed. */
  method Stop(child: Child)
    modifies child
    ensures !child.alive && |child.polls| == |old(child.polls)| + 1 && old(child.polls) <= child.polls
    ensures
      if child.polls[|old(child.polls)|].Some? then child.sent == old(child.sent)
      else (
        || child.sent == old(child.sent) + [Asked, Waited(30, true)]
        || child.sent == old(child.sent) + [Asked, Waited(30, false), Killed, Reaped])
  {
    var answer := child.Poll();
    if answer.None? {
      child.Terminate();
      var exited := child.WaitFor(30);
      if !exited {
        child.Kill();
        child.Reap();
      }
    }
  }

  /** The heartbeat callback of one claimed run. `answers` records what each beat came to: whether a cancel was
      requested, or that the lease was lost. */
  class Pulse {
    const store: Store.RunStore
    const p: string
    const r: string
    const token: string
    ghost var answers: seq<Option<bool>>

    constructor (store: Store.RunStore, p: string, r: string, token: string)
      ensures this.store == store && this.p == p && this.r == r && this.token == token && answers == []
    {
      this.store, this.p, this.r, this.token, answers := store, p, r, token, [];
    }

    method Beat(now: int) returns (answer: Option<bool>)
      requires Inv(store.Db())
      modifies this`answers, store
      ensures Reaches(old(store.Db()), store.Db(), Some(token)) && Inv(store.Db())
      ensures answers == old(answers) + [answer]
      ensures answer == if Holds(store.Db(), p, r, Some(token)) then Some(store.runs[r].cancelRequested) else None
    {
      ghost var a := store.Db();
      store.Interfere(Some(token));
      ghost var b := store.Db();
      var beat := store.Heartbeat(p, r, Some(token), now);
      ReachesStep(b, Step.Heartbeat(p, r, Some(token), now), store.Db(), Some(token));
      ReachesTransitive(a, b, store.Db(), Some(token));
      ReachesSafely(a, store.Db(), Some(token));
      answer := if beat.Success? then Some(beat.value) else None;
      answers := answers + [answer];
    }
  }

  /** Where a `KeyboardInterrupt` may come in: before the `n`th poll, which includes the sleep, or during a beat. */
  datatype Moment = Preparing | Polling(n: nat) | Beating(n: nat) | Publishing

  /** What a local run meets outside the store: the deadline in half-seconds, whether its directory can be prepared, the
      moments of interrupts, what the child leaves behind, the files on disk, and whether the last writes succeed. */
  datatype World = World(deadline: nat, prepared: bool, interrupts: set<Moment>, candidate: Candidate,
                         disk: map<string, string>, written: bool)

  /** What the supervised child came to: its own exit while polled, a cancel that was seen, or the deadline. */
  function Outcome(polls: seq<Option<int>>, answers: seq<Option<bool>>): Status {
    if Some(0) in polls then Succeeded else if Some(true) in answers then Cancelled else Failed
  }

  /** The child has been found running so far, and no beat has found a cancel or a lost lease. */
  predicate Uneventful(polls: seq<Option<int>>, answers: seq<Option<bool>>) {
    |answers| == |polls| && (forall a :: a in polls ==> a == None) && forall a :: a in answers ==> a == Some(false)
  }

  /** The loop ended, not by an exception, for one of its reasons. */
  ghost predicate Ended(polls: seq<Option<int>>, answers: seq<Option<bool>>, deadline: nat) {
    && polls != []
    && var n := |polls| - 1;
       || (polls[n].Some? && Uneventful(polls[..n], answers))
       || (polls[n].None? && |answers| == n + 1 && Uneventful(polls[..n], answers[..n])
           && (answers[n] == Some(true) || (answers[n] == Some(false) && n == deadline)))
  }

  /** An interrupt before the next poll, or an interrupt or a lost lease at the last beat. */
  predicate Disturbed(polls: seq<Option<int>>, answers: seq<Option<bool>>, interrupts: set<Moment>) {
    && |answers| == |polls|
    && (Polling(|polls|) in interrupts
        || (answers != [] && (Beating(|answers| - 1) in interrupts || answers[|answers| - 1] == None)))
  }

  /** No interrupt fell on any of the polls and beats made. */
  predicate Undisturbed(polls: seq<Option<int>>, answers: seq<Option<bool>>, interrupts: set<Moment>) {
    && (forall n: nat {:trigger Polling(n)} :: n < |polls| ==> Polling(n) !in interrupts)
    && forall n: nat {:trigger Beating(n)} :: n < |answers| ==> Beating(n) !in interrupts
  }

  /** The polling loop. Each round polls once and, if the child still runs, beats once. */
  method Watch(pulse: Pulse, child: Child, world: World) returns (status: Status, raised: bool)
    requires Inv(pulse.store.Db()) && pulse.answers == [] && child.polls == []
    modifies pulse`answers, pulse.store, child
    ensures Reaches(old(pulse.store.Db()), pulse.store.Db(), Some(pulse.token)) && Inv(pulse.store.Db())
    ensures !raised ==>
      Ended(child.polls, pulse.answers, world.deadline) && status == Outcome(child.polls, pulse.answers)
    ensures raised ==> Disturbed(child.polls, pulse.answers, world.interrupts)
    ensures !raised ==> Undisturbed(child.polls, pulse.answers, world.interrupts)
    ensures raised ==> Some(0) !in child.polls
    ensures !raised && Some(true) in pulse.answers ==>
      Holds(pulse.store.Db(), pulse.p, pulse.r, Some(pulse.token)) && pulse.store.runs[pulse.r].cancelRequested
  {
    var now := 0;
    ghost var before := pulse.store.Db();
    ReachesNothing(before, Some(pulse.token));
    while true
      invariant now <= world.deadline && now == |child.polls| && Uneventful(child.polls, pulse.answers)
      invariant Undisturbed(child.polls, pulse.answers, world.interrupts)
      invariant Reaches(before, pulse.store.Db(), Some(pulse.token)) && Inv(pulse.store.Db())
      decreases world.deadline - now
    {
      if Polling(now) in world.interrupts { return Failed, true; }
      ghost var polls, answers := child.polls, pulse.answers;
      var code := child.Poll();
      assert child.polls[..|polls|] == polls;
      if code.Some? { return if code.value == 0 then Succeeded else Failed, false; }
      ghost var a := pulse.store.Db();
      var beatTime: int := *;
      var cancelled := pulse.Beat(beatTime);
      assert pulse.answers[..|answers|] == answers;
      ReachesTransitive(before, a, pulse.store.Db(), Some(pulse.token));
      if Beating(now) in world.interrupts { return Failed, true; }
      if cancelled.None? { return Failed, true; }
      if cancelled.value { return Cancelled, false; }
      if now >= world.deadline { return Failed, false; }
      now := now + 1;
    }
  }

  /** The codes that the polling loop saw; the last poll is that of the `finally` block. */
  ghost function Watched(child: Child): seq<Option<int>>
    reads child
  {
    if child.polls == [] then [] else child.polls[..|child.polls| - 1]
  }

  /** The child's exit code, a cancel or the deadline decide the status; a manifest is what a child that exited with
      code 0 left behind. It raises when interrupted, when the lease is lost, or on an unreadable manifest. */
  method Supervise(pulse: Pulse, world: World)
    returns (status: Status, manifest: Option<Manifest>, raised: bool, child: Child)
    requires Inv(pulse.store.Db()) && pulse.answers == []
    modifies pulse`answers, pulse.store
    ensures Reaches(old(pulse.store.Db()), pulse.store.Db(), Some(pulse.token)) && Inv(pulse.store.Db())
    ensures fresh(child) && !child.alive
    ensures !raised ==> Ended(Watched(child), pulse.answers, world.deadline)
    ensures !raised ==>
      && (status == Succeeded <==> Some(0) in Watched(child))
      && (status == Cancelled <==> Some(true) in pulse.answers)
      && status in {Succeeded, Failed, Cancelled}
    ensures !raised ==>
      manifest == if status == Succeeded && world.candidate.Wrote? then Some(world.candidate.manifest) else None
    ensures raised ==>
      || (Disturbed(Watched(child), pulse.answers, world.interrupts) && Some(0) !in Watched(child))
      || (Some(0) in Watched(child) && world.candidate.Unreadable?)
    ensures !raised ==> Undisturbed(Watched(child), pulse.answers, world.interrupts)
    ensures Some(0) in Watched(child) ==> (raised <==> world.candidate.Unreadable?)
    ensures !raised && status == Cancelled ==>
      Holds(pulse.store.Db(), pulse.p, pulse.r, Some(pulse.token)) && pulse.store.runs[pulse.r].cancelRequested
  {
    child := new Child();
    manifest := None;
    status, raised := Watch(pulse, child, world);
    ghost var polls := child.polls;
    Stop(child);
    assert Watched(child) == polls;
    if !raised { OutcomesDiffer(polls, pulse.answers, world.deadline); }
    if !raised && status == Succeeded {
      match world.candidate {
        case Unreadable => raised := true;
        case Null =>
        case Wrote(m) => manifest := Some(m);
      }
    }
  }

  /** A loop that ends has not seen both an exit and a cancel. */
  lemma OutcomesDiffer(polls: seq<Option<int>>, answers: seq<Option<bool>>, deadline: nat)
    requires Ended(polls, answers, deadline)
    ensures Some(0) in polls ==> Some(true) !in answers
  {
    var n := |polls| - 1;
    assert polls == polls[..n] + [polls[n]];
  }

  /** A stored manifest means success and is what the child wrote, verified unless it is a falsy value;
      a cancel that committed first decided the outcome. */
  predicate PublishedSafely(run: Run, p: string, r: string, candidate: Candidate, disk: map<string, string>) {
    && (run.manifest.Some? ==>
          && run.status == Succeeded
          && candidate == Wrote(run.manifest.value)
          && (Truthy(run.manifest.value) ==> Verified(run, p, r, run.manifest.value, disk)))
    && (run.cancelRequested ==> run.status == Cancelled && run.manifest == None)
  }

  /** The lease holder's own `finish`: it ends the run, or others already had. */
  lemma OwnFinishSettles(a: Db, b: Db, p: string, r: string, token: string, status: Status, manifest: Option<Manifest>,
                         error: Option<string>, candidate: Candidate, disk: map<string, string>)
    requires Inv(a) && HeldOrLost(a, p, r, Some(token)) && status.Terminal()
    requires b == Finished(a, p, r, Some(token), status, manifest, error, None)
    requires manifest.Some? ==> candidate == Wrote(manifest.value)
    requires manifest.Some? && Truthy(manifest.value) ==> Verified(a.runs[r], p, r, manifest.value, disk)
    ensures Inv(b) && Settled(b, p, r) && PublishedSafely(b.runs[r], p, r, candidate, disk)
  {
    ReachesStep(a, Finish(p, r, Some(token), status, manifest, error, None), b, None);
    ReachesSafely(a, b, None);
    assert RowOk(a, r) && RowOk(b, r);
    EndedIsSettled(b, p, r);
  }

  // ---------------------------------------------------------------------------------------
  // run_local
  // ---------------------------------------------------------------------------------------

  /** Why a run is not published: one of the failures on the way to `finish`. */
  ghost predicate Unpublished(world: World, child: Child?, pulse: Pulse, run: Run)
    reads child, pulse
  {
    || !world.prepared || Preparing in world.interrupts || Publishing in world.interrupts
    || (child != null && Disturbed(Watched(child), pulse.answers, world.interrupts) && Some(0) !in Watched(child))
    || (child != null && Some(0) in Watched(child) && (world.candidate.Unreadable? || !Publishable(world, pulse, run)))
  }

  predicate SameInput(x: Run, y: Run) { y.spec == x.spec && y.provenance == x.provenance }

  lemma UnpublishedStays(world: World, child: Child?, pulse: Pulse, x: Run, y: Run)
    requires Unpublished(world, child, pulse, x) && SameInput(x, y)
    ensures Unpublished(world, child, pulse, y)
  {
  }

  /** The manifest that the child wrote, if it is truthy, is verified. */
  predicate Publishable(world: World, pulse: Pulse, run: Run) {
    world.candidate.Wrote? && Truthy(world.candidate.manifest) ==>
      Verified(run, pulse.p, pulse.r, world.candidate.manifest, world.disk)
  }

  /** Nothing goes wrong, and the child exits with code 0 while polled, leaving a manifest that verifies if truthy. */
  ghost predicate Clean(world: World, child: Child?, pulse: Pulse, run: Run)
    reads child, pulse
  {
    && world.prepared && Preparing !in world.interrupts && Publishing !in world.interrupts
    && child != null && Some(0) in Watched(child) && None !in pulse.answers
    && world.candidate.Wrote? && Publishable(world, pulse, run)
  }

  /** The status that the run is to end in. */
  ghost function Decided(child: Child?, pulse: Pulse, finishing: bool): Status
    reads child, pulse
  {
    if finishing && child != null then Outcome(Watched(child), pulse.answers) else Failed
  }

  /** The row when the holder's own `finish` found it as `x`: a requested cancel wins, and success keeps what the child
      wrote. */
  predicate EndedAs(x: Run, y: Run, status: Status, candidate: Candidate) {
    && y.status == (if x.cancelRequested then Cancelled else status)
    && y.manifest == (if y.status == Succeeded && candidate.Wrote? then Some(candidate.manifest) else None)
    && y.error == (if status == Succeeded then None else y.error) && (status != Succeeded ==> y.error.Some?)
  }

  lemma FinishEndsAs(a: Db, b: Db, p: string, r: string, token: string, status: Status, manifest: Option<Manifest>,
                     error: Option<string>, candidate: Candidate)
    requires b == Finished(a, p, r, Some(token), status, manifest, error, None)
    requires MayFinish(a, p, r, Some(token), status, None)
    requires manifest == if status == Succeeded && candidate.Wrote? then Some(candidate.manifest) else None
    requires error.None? <==> status == Succeeded
    ensures EndedAs(a.runs[r], b.runs[r], status, candidate)
  {
  }

  lemma HeldMayFinish(db: Db, p: string, r: string, token: string, status: Status)
    requires Inv(db) && status.Terminal()
    ensures Holds(db, p, r, Some(token)) <==> MayFinish(db, p, r, Some(token), status, None)
  {
    if Holds(db, p, r, Some(token)) { assert RowOk(db, r); }
  }

  /** The publishing transaction, with the others' before it, and the writes after it. */
  method Publish(pulse: Pulse, status: Status, manifest: Option<Manifest>, world: World)
    returns (raised: bool, ghost mid: Db)
    requires Inv(pulse.store.Db()) && HeldOrLost(pulse.store.Db(), pulse.p, pulse.r, Some(pulse.token))
    requires status in {Succeeded, Failed, Cancelled} && pulse.r in pulse.store.runs
    requires manifest == if status == Succeeded && world.candidate.Wrote? then Some(world.candidate.manifest) else None
    requires manifest.Some? && Truthy(manifest.value) ==>
               Verified(pulse.store.runs[pulse.r], pulse.p, pulse.r, manifest.value, world.disk)
    modifies pulse.store
    ensures Inv(pulse.store.Db()) && Inv(mid) && Reaches(old(pulse.store.Db()), mid, Some(pulse.token))
    ensures HeldOrLost(mid, pulse.p, pulse.r, Some(pulse.token)) && Settled(pulse.store.Db(), pulse.p, pulse.r)
    ensures PublishedSafely(pulse.store.runs[pulse.r], pulse.p, pulse.r, world.candidate, world.disk)
    ensures raised <==> !Holds(mid, pulse.p, pulse.r, Some(pulse.token)) || !world.written
    ensures Holds(mid, pulse.p, pulse.r, Some(pulse.token)) ==>
      EndedAs(mid.runs[pulse.r], pulse.store.runs[pulse.r], status, world.candidate)
  {
    hide EndedAs, PublishedSafely, MayFinish, Finished;
    var store := pulse.store;
    ghost var p, r, token := pulse.p, pulse.r, pulse.token;
    ghost var before := store.Db();
    store.Interfere(Some(token));
    mid := store.Db();
    ReachesSafely(before, mid, Some(token));
    assert RunEvolves(before, mid, r);
    var error := if status == Succeeded then None else Some("Execution stopped; no dataset published");
    var done := store.Finish(pulse.p, pulse.r, Some(pulse.token), status, manifest, error, None);
    OwnFinishSettles(mid, store.Db(), p, r, token, status, manifest, error, world.candidate, world.disk);
    HeldMayFinish(mid, p, r, token, status);
    if done.Success? { FinishEndsAs(mid, store.Db(), p, r, token, status, manifest, error, world.candidate); }
    raised := done.Failure? || !world.written;
  }

  /** The body of the `try` block. `finishing` says whether its `finish` is called, and `mid` what it finds. */
  method Attempt(pulse: Pulse, world: World) returns (raised: bool, ghost finishing: bool, ghost mid: Db, child: Child?)
    requires Inv(pulse.store.Db()) && HeldOrLost(pulse.store.Db(), pulse.p, pulse.r, Some(pulse.token))
    requires pulse.answers == []
    modifies pulse`answers, pulse.store
    ensures Inv(pulse.store.Db()) && pulse.r in pulse.store.runs && (child != null ==> fresh(child) && !child.alive)
    ensures Inv(mid) && Reaches(old(pulse.store.Db()), mid, Some(pulse.token))
    ensures HeldOrLost(mid, pulse.p, pulse.r, Some(pulse.token))
    ensures !finishing ==>
      raised && mid == pulse.store.Db() && Unpublished(world, child, pulse, pulse.store.runs[pulse.r])
    ensures finishing ==>
      && Settled(pulse.store.Db(), pulse.p, pulse.r)
      && PublishedSafely(pulse.store.runs[pulse.r], pulse.p, pulse.r, world.candidate, world.disk)
      && (raised <==> !Holds(mid, pulse.p, pulse.r, Some(pulse.token)) || !world.written)
      && (Holds(mid, pulse.p, pulse.r, Some(pulse.token)) ==>
            EndedAs(mid.runs[pulse.r], pulse.store.runs[pulse.r], Decided(child, pulse, true), world.candidate))
    ensures finishing ==> child != null && Ended(Watched(child), pulse.answers, world.deadline)
  {
    var store := pulse.store;
    ghost var p, r, held := pulse.p, pulse.r, Some(pulse.token);
    ghost var db1 := store.Db();
    ReachesNothing(db1, held);
    child, finishing, mid := null, false, db1;
    if !world.prepared || Preparing in world.interrupts { return true, false, mid, null; }
    var status, manifest, lost, process := Supervise(pulse, world);
    child := process;
    ghost var db2 := store.Db();
    ReachesSafely(db1, db2, held);
    mid := db2;
    if lost { return true, false, mid, child; }
    if manifest.Some? && Truthy(manifest.value) {
      if !Verified(store.runs[pulse.r], pulse.p, pulse.r, manifest.value, world.disk) {
        return true, false, mid, child;
      }
    }
    if Publishing in world.interrupts { return true, false, mid, child; }
    raised, mid := Publish(pulse, status, manifest, world);
    ReachesTransitive(db1, db2, mid, held);
    finishing := true;
  }

  /** The exception handler: the run is failed, unless it has ended already. */
  method Recover(pulse: Pulse, world: World) returns (ghost mid: Db)
    requires Inv(pulse.store.Db()) && pulse.r in pulse.store.runs
    requires
      || HeldOrLost(pulse.store.Db(), pulse.p, pulse.r, Some(pulse.token))
      || (Settled(pulse.store.Db(), pulse.p, pulse.r)
          && PublishedSafely(pulse.store.runs[pulse.r], pulse.p, pulse.r, world.candidate, world.disk))
    modifies pulse.store
    ensures Inv(pulse.store.Db()) && Inv(mid) && Reaches(old(pulse.store.Db()), mid, Some(pulse.token))
    ensures Settled(pulse.store.Db(), pulse.p, pulse.r)
    ensures PublishedSafely(pulse.store.runs[pulse.r], pulse.p, pulse.r, world.candidate, world.disk)
    ensures old(Settled(pulse.store.Db(), pulse.p, pulse.r)) ==>
      pulse.store.runs[pulse.r] == old(pulse.store.runs[pulse.r])
    ensures SameInput(old(pulse.store.runs[pulse.r]), pulse.store.runs[pulse.r])
    ensures Holds(mid, pulse.p, pulse.r, Some(pulse.token)) ==>
      EndedAs(mid.runs[pulse.r], pulse.store.runs[pulse.r], Failed, world.candidate)
  {
    hide EndedAs, PublishedSafely, MayFinish;
    var store := pulse.store;
    ghost var p, r, token := pulse.p, pulse.r, pulse.token;
    ghost var before := store.Db();
    store.Interfere(Some(token));
    mid := store.Db();
    ReachesSafely(before, mid, Some(token));
    assert RunEvolves(before, mid, r);
    if Settled(before, p, r) { SettledStays(before, mid, p, r, Some(token)); }
    var error := Some("Execution failed; no dataset published");
    var done := store.Finish(pulse.p, pulse.r, Some(pulse.token), Failed, None, error, None);
    HeldMayFinish(mid, p, r, token, Failed);
    if HeldOrLost(mid, p, r, Some(token)) {
      OwnFinishSettles(mid, store.Db(), p, r, token, Failed, None, error, world.candidate, world.disk);
    }
    if done.Success? { FinishEndsAs(mid, store.Db(), p, r, token, Failed, None, error, world.candidate); }
  }

  lemma ClaimedHolds(a: Db, b: Db, p: string, r: string, token: string, now: int)
    requires Inv(a) && token !in a.issued && RunTables.Candidate(a, p, Some(r), r) && b == Claimed(a, p, r, token, now)
    requires p in a.projects && a.projects[p] == None
    ensures Inv(b) && HeldOrLost(b, p, r, Some(token))
  {
    assert Oldest(a, p, Some(r), r);
    ReachesStep(a, Step.Claim(p, Some(r), token, now), b, None);
    ReachesSafely(a, b, None);
  }

  datatype Exit = NotClaimed | Returned | Raised

  /** Whatever is thrown, lost or cancelled along the way, the claimed run ends and its slot is freed. A run that
      nothing goes wrong with ends as its child did, with what the child wrote: `mid` is the state that the deciding
      `finish` finds, and unless `finishing` that is the exception handler's. */
  method RunLocal(store: Store.RunStore, p: string, r: string, token: string, now: int, world: World)
    returns (exit: Exit, pulse: Pulse, child: Child?, ghost finishing: bool, ghost mid: Db)
    requires Inv(store.Db()) && token !in store.issued
    modifies store
    ensures Inv(store.Db()) && fresh(pulse) && (child != null ==> fresh(child) && !child.alive)
    ensures pulse.p == p && pulse.r == r && pulse.token == token
    ensures exit == NotClaimed <==>
      !(p in old(store.projects) && old(store.projects)[p] == None && r in old(store.runs)
        && old(store.runs)[r].project == p && old(store.runs)[r].status == Queued)
    ensures exit == NotClaimed ==> store.Db() == old(store.Db())
    ensures exit != NotClaimed ==>
      && Settled(store.Db(), p, r) && PublishedSafely(store.runs[r], p, r, world.candidate, world.disk)
      && Reaches(Claimed(old(store.Db()), p, r, token, now), mid, Some(token))
      && (!finishing ==> Unpublished(world, child, pulse, store.runs[r]))
      && (exit == Returned <==> finishing && Holds(mid, p, r, Some(token)) && world.written)
    ensures exit != NotClaimed && Holds(mid, p, r, Some(token)) ==>
      EndedAs(mid.runs[r], store.runs[r], Decided(child, pulse, finishing), world.candidate)
    ensures exit != NotClaimed && finishing ==> child != null && Ended(Watched(child), pulse.answers, world.deadline)
    ensures exit != NotClaimed && Holds(mid, p, r, Some(token)) && !mid.runs[r].cancelRequested ==>
      Clean(world, child, pulse, store.runs[r]) ==>
        store.runs[r].status == Succeeded && store.runs[r].manifest == Some(world.candidate.manifest)
  {
    hide PublishedSafely, Unpublished, TableInv, ReplayInv, StartInv;
    ghost var db0 := store.Db();
    pulse := new Pulse(store, p, r, token);
    child, finishing, mid := null, false, db0;
    var claim := store.Claim(p, Some(r), token, now);
    if claim.Failure? || claim.value.None? { return NotClaimed, pulse, null, false, mid; }
    ghost var db1 := store.Db();
    ClaimedHolds(db0, db1, p, r, token, now);
    var raised;
    raised, finishing, mid, child := Attempt(pulse, world);
    ghost var db2 := store.Db();
    if raised {
      ghost var found := Recover(pulse, world);
      if !finishing {
        UnpublishedStays(world, child, pulse, db2.runs[r], store.runs[r]);
        ReachesTransitive(db1, db2, found, Some(token));
        mid := found;
      }
      return Raised, pulse, child, finishing, mid;
    }
    store.Interfere(Some(token));
    SettledStays(db2, store.Db(), p, r, Some(token));
    return Returned, pulse, child, finishing, mid;
  }

  /** What a truthy stored manifest is: of this run, its spec and the provenance it was submitted with, past the gate if
      there is one, listing the three outputs, and every file it lists on disk with the digest it lists. */
  lemma StoredManifestIsIntact(run: Run, p: string, r: string, candidate: Candidate, disk: map<string, string>,
                               m: Manifest)
    requires PublishedSafely(run, p, r, candidate, disk) && run.manifest == Some(m) && m != Falsy
    ensures candidate == Wrote(m) && run.status == Succeeded && m.Manifest?
    ensures m.runId == r && m.project == p && m.spec == run.spec && m.provenance == run.provenance
    ensures run.spec.requireGain ==> m.gateAccepted
    ensures "output" in m.artifacts && "rejected" in m.artifacts && "report" in m.artifacts
    ensures forall a :: a in m.artifacts ==> a in disk && disk[a] == m.artifacts[a]
  {
    assert {"output", "rejected", "report"} <= m.artifacts.Keys;
  }

  /** And such a manifest is not refused. */
  lemma IntactManifestIsPublishable(world: World, pulse: Pulse, run: Run, m: Manifest)
    requires world.candidate == Wrote(m) && m.Manifest?
    requires m.runId == pulse.r && m.project == pulse.p && m.spec == run.spec && m.provenance == run.provenance
    requires !run.spec.requireGain || m.gateAccepted
    requires "output" in m.artifacts && "rejected" in m.artifacts && "report" in m.artifacts
    requires forall a :: a in m.artifacts ==> a in world.disk && world.disk[a] == m.artifacts[a]
    ensures Publishable(world, pulse, run)
  {
    assert {"output", "rejected", "report"} <= m.artifacts.Keys;
  }

  /** The gate of `run_local` tests the manifest's truth value before verifying it, so an empty manifest is stored
      on a succeeded run although no disk content verifies it. Exactly the falsy values slip through. */
  lemma EmptyManifestIsPublishedUnverified(db: Db, p: string, r: string, token: string, m: Manifest,
                                           disk: map<string, string>)
    requires MayFinish(db, p, r, Some(token), Succeeded, None) && !db.runs[r].cancelRequested
    ensures
      var gate := Truthy(m) ==> Verified(db.runs[r], p, r, m, disk);
      var row := Finished(db, p, r, Some(token), Succeeded, Some(m), None, None).runs[r];
      && row.status == Succeeded && row.manifest == Some(m)
      && (gate && !Verified(row, p, r, row.manifest.value, disk) <==> !Truthy(m))
  {
    var row := Finished(db, p, r, Some(token), Succeeded, Some(m), None, None).runs[r];
    assert Verified(row, p, r, m, disk) == Verified(db.runs[r], p, r, m, disk);
  }

  /** The database with one run of one project, before and after its child leaves an empty object behind. */
  function OneRun(run: Run, slot: Option<string>, events: seq<Event>, issued: set<string>): Db {
    Db(map["p" := slot], map["d" := Dataset("p", false)], map["r" := run], events, issued)
  }

  const ENTRY := Run("p", "a", "k", Spec("p", "d", None, true, ""), Provenance("", ""), None, 0, 0, Queued, false, None,
                     None, None, None)

  const OPENING := [Event("p", None, Other("project.created")), Event("p", None, Other("dataset.registered"))]

  lemma ExampleSubmitted()
    ensures Submitted(DatasetAdded(ProjectEnsured(EMPTY_DB, "p"), "p", "d"), "r", ENTRY.spec, "a", "k",
                      ENTRY.provenance, None, 0)
         == OneRun(ENTRY, None, OPENING + [Event("p", Some("r"), RunQueued)], {})
  {
  }

  lemma ExampleFinished(db: Db, events: seq<Event>)
    requires db == OneRun(ENTRY, None, events, {})
    ensures ClaimStep(db, "p", None, "t", 0, Claimed(db, "p", "r", "t", 0))
    ensures
      var t := Finished(Claimed(db, "p", "r", "t", 0), "p", "r", Some("t"), Succeeded, Some(Falsy), None, None);
      "r" in t.runs && t.runs["r"].status == Succeeded && t.runs["r"].manifest == Some(Falsy)
  {
    assert Oldest(db, "p", None, "r");
  }

  /** A history in which that happens: the child of its one run left an empty object behind. */
  lemma EmptyManifestExample(disk: map<string, string>) returns (dbs: seq<Db>, steps: seq<Step>)
    ensures History(dbs, steps)
    ensures
      var db := dbs[|dbs| - 1];
      && "r" in db.runs && db.runs["r"].status == Succeeded && db.runs["r"].manifest == Some(Falsy)
      && !Verified(db.runs["r"], "p", "r", Falsy, disk)
  {
    ExampleSubmitted();
    var added := DatasetAdded(ProjectEnsured(EMPTY_DB, "p"), "p", "d");
    var queued := Submitted(added, "r", ENTRY.spec, "a", "k", ENTRY.provenance, None, 0);
    ExampleFinished(queued, OPENING + [Event("p", Some("r"), RunQueued)]);
    var claimed := Claimed(queued, "p", "r", "t", 0);
    steps := [EnsureProject("p"), AddDataset("p", "d"),
              Step.Submit("r", ENTRY.spec, "a", "k", ENTRY.provenance, None, 0), Step.Claim("p", None, "t", 0),
              Finish("p", "r", Some("t"), Succeeded, Some(Falsy), None, None)];
    dbs := [EMPTY_DB, ProjectEnsured(EMPTY_DB, "p"), added, queued, claimed,
            Finished(claimed, "p", "r", Some("t"), Succeeded, Some(Falsy), None, None)];
  }
}
