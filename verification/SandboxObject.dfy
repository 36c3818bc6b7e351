/** The `PluginSandbox` object. A call holds the lock from start to end; only workers move meanwhile. */
module SandboxObject {
  import opened Wrappers
  import opened Sandbox
  import opened SandboxTheorems

  /** What a worker does by itself, or a reader thread left behind. */
  datatype Move = Replies(worker: nat, ok: bool, content: string) | Dies(worker: nat) | Strays(worker: nat)

  function StepOf(m: Move): Step {
    match m
    case Replies(w, ok, content) => Answer(w, ok, content)
    case Dies(w) => Step.Crash(w)
    case Strays(w) => StrayRead(w)
  }

  /** The state after these moves, those that cannot be made left out. */
  function After(s: State, moves: seq<Move>): (t: State)
    ensures |t.workers| == |s.workers|
  {
    if moves == [] then s
    else
      var t := After(s, moves[..|moves| - 1]);
      var step := StepOf(moves[|moves| - 1]);
      if Enabled(t, step) then Next(t, step) else t
  }

  /** What happens to one call: whether a worker can be started and its pipe written to, what the workers do while the
      call waits, and whether the wait is interrupted or runs out. All of it is arbitrary. */
  datatype Fate = Fate(spawns: bool, writes: bool, moves: seq<Move>, interrupted: bool, expires: bool)

  /** A worker runs, or can be started. */
  predicate Ready(s: State, fate: Fate) {
    !s.poisoned && match s.current case None => fate.spawns case Some(w) => w < |s.workers| && s.workers[w].alive
  }

  /** The worker a call talks to. */
  function Callee(s: State): nat { s.current.GetOr(|s.workers|) }

  /** The state in which the wait of a call ends: the request was sent, and the workers have moved. */
  function Waited(s: State, kind: string, payload: string, fate: Fate): (t: State)
    requires Ready(s, fate) && s.pending.None?
    ensures Callee(s) < |t.workers|
  {
    var running := if s.current.None? then Next(s, Spawn) else s;
    After(Next(running, Send(kind, payload)), fate.moves)
  }

  /** How a wait ends: interrupted; given up when it runs out or the stream ends; or with the first reply in the
      worker's pipe, which is the result or the error of this request unless it carries another id. */
  function Answered(at: State, q: Pending, fate: Fate): Outcome
    requires q.worker < |at.workers|
  {
    if fate.interrupted then Interrupted(q.request, q.worker)
    else if fate.expires || at.workers[q.worker].replies == [] then Broken
    else
      var reply := at.workers[q.worker].replies[0];
      if reply.id != q.request.id then Desynchronized(q.request, q.worker)
      else if reply.ok then Value(q.request, reply.content)
      else PluginError(q.request, reply.content)
  }

  lemma {:induction false} AfterKeeps(s: State, moves: seq<Move>)
    requires Inv(s)
    ensures Inv(After(s, moves)) && Leads(s, After(s, moves))
    ensures After(s, moves) == s.(workers := After(s, moves).workers, answered := After(s, moves).answered)
  {
    hide Inv, Leads;
    if moves == [] {
      LeadsNowhere(s);
    } else {
      AfterKeeps(s, moves[..|moves| - 1]);
      var t, step := After(s, moves[..|moves| - 1]), StepOf(moves[|moves| - 1]);
      if Enabled(t, step) {
        StepLeads(t, step);
        LeadsOn(s, t, Next(t, step));
      }
    }
  }

  /** A call to a worker that is in step: its answer is the call's result, or the plugin's error, and silence is a
      failure, as is an answer that comes too late; an interrupt takes precedence. */
  lemma CallsComeTo(s: State, kind: string, payload: string, fate: Fate, ok: bool, content: string)
    requires Inv(s) && s.pending.None? && Ready(s, fate) && Callee(s) !in s.interrupted
    requires fate.moves == [] || fate.moves == [Replies(Callee(s), ok, content)]
    ensures
      var request := Request(s.nextId, kind, payload);
      var out := Answered(Waited(s, kind, payload, fate), Pending(request, Callee(s)), fate);
      if fate.interrupted then out == Interrupted(request, Callee(s))
      else if fate.moves == [] || fate.expires then out == Broken
      else if ok then out == Value(request, content)
      else out == PluginError(request, content)
  {
    InStepBefore(s);
    hide Inv;
    var running := if s.current.None? then Next(s, Spawn) else s;
    var sent := Next(running, Send(kind, payload));
    OneMove(sent, Replies(Callee(s), ok, content));
  }

  lemma InStepBefore(s: State)
    requires Inv(s) && s.pending.None? && !s.poisoned && Callee(s) !in s.interrupted
    ensures s.current.Some? ==>
      && s.current.value < |s.workers|
      && s.workers[s.current.value].requests == [] && s.workers[s.current.value].replies == []
  {
    if s.current.Some? { assert WorkerOk(s, s.current.value); }
  }

  lemma OneMove(s: State, m: Move)
    ensures After(s, []) == s
    ensures After(s, [m]) == if Enabled(s, StepOf(m)) then Next(s, StepOf(m)) else s
  {
    assert [m][..0] == [];
  }

  class PluginSandbox {
    var process: Option<nat>
    var poisoned: bool
    var nextId: nat
    var workers: seq<Worker>             // the operating system's side, and the reader threads left behind
    ghost var pending: Option<Pending>
    ghost var sent: map<nat, Request>
    ghost var answered: map<nat, (Request, Reply)>
    ghost var interrupted: set<nat>
    ghost var log: seq<Outcome>

    ghost function Abstract(): State reads this {
      State(workers, process, poisoned, nextId, pending, sent, answered, interrupted, log)
    }

    ghost predicate Idle() reads this { Inv(Abstract()) && pending == None }

    constructor ()
      ensures Abstract() == START && Idle()
    {
      process, poisoned, nextId, workers := None, false, 1, [];
      pending, sent, answered, interrupted, log := None, map[], map[], {}, [];
    }

    /** Any worker may answer a request it has read, with anything, or crash; a reader left behind may take a reply. */
    method WorkersRun(moves: seq<Move>)
      requires Inv(Abstract())
      modifies this`workers, this`answered
      ensures Inv(Abstract()) && |workers| == |old(workers)|
      ensures Abstract() == After(old(Abstract()), moves) && Leads(old(Abstract()), Abstract())
    {
      ghost var before := Abstract();
      AfterKeeps(before, moves);
      for i := 0 to |moves|
        invariant Abstract() == After(before, moves[..i])
      {
        AfterKeeps(before, moves[..i]);
        assert moves[..i + 1][..i] == moves[..i];
        WorkerMoves(moves[i]);
      }
      assert moves[..|moves|] == moves;
    }

    method WorkerMoves(m: Move)
      requires Inv(Abstract())
      modifies this`workers, this`answered
      ensures Abstract() == if Enabled(old(Abstract()), StepOf(m)) then Next(old(Abstract()), StepOf(m))
          else old(Abstract())
    {
      var w := m.worker;
      if w >= |workers| { return; }
      match m {
        case Strays(_) =>
          if workers[w].readers > 0 && workers[w].replies != [] {
            workers := workers[w := workers[w].(readers := workers[w].readers - 1, replies := workers[w].replies[1..])];
          }
        case Replies(_, ok, content) =>
          if workers[w].alive && workers[w].requests != [] {
            var request := workers[w].requests[0];
            var reply := Reply(request.id, ok, content);
            workers := workers[w :=
                workers[w].(requests := workers[w].requests[1..], replies := workers[w].replies + [reply])];
            answered := answered[request.id := (request, reply)];
          }
        case Dies(_) => workers := workers[w := workers[w].(alive := false)];
      }
    }

    method PoisonLocked(ghost outcome: Outcome)
      modifies this
      ensures Abstract() == Poison(old(Abstract()), outcome)
    {
      poisoned, process := true, None;
      pending, log := None, log + [outcome];
    }

    /** Start the worker on first use; a worker found dead is never replaced. */
    method EnsureRunning(fate: Fate) returns (ok: bool)
      requires Idle() && !poisoned
      modifies this
      ensures ok <==> Ready(old(Abstract()), fate)
      ensures ok ==> Abstract() == if old(process).None? then Next(old(Abstract()), Spawn) else old(Abstract())
      ensures Idle() && nextId == old(nextId) && interrupted == old(interrupted)
      ensures ok ==> !poisoned && process.Some? && workers[process.value].alive && log == old(log)
      ensures ok ==> process == if old(process).Some? then old(process) else Some(|old(workers)|)
      ensures !ok ==> poisoned && log == old(log) + [Broken]
      ensures Leads(old(Abstract()), Abstract())
    {
      ghost var s := Abstract();
      LeadsNowhere(s);
      ok := true;
      if process.None? {
        if !fate.spawns {
          PoisonLocked(Broken);
          StepLeads(s, FailToSpawn);
          return false;
        }
        process := Some(|workers|);
        workers := workers + [Worker([], [], true, 0)];
        StepLeads(s, Spawn);
      } else if !workers[process.value].alive {
        PoisonLocked(Broken);
        StepLeads(s, FindDead);
        return false;
      }
    }

    method Write(kind: string, payload: string, fate: Fate) returns (ok: bool)
      requires Idle() && !poisoned && process.Some? && workers[process.value].alive
      modifies this
      ensures ok <==> fate.writes
      ensures ok ==> Abstract() == Next(old(Abstract()), Send(kind, payload))
      ensures Inv(Abstract()) && nextId == old(nextId) + 1 && interrupted == old(interrupted)
      ensures ok ==> pending == Some(Pending(Request(old(nextId), kind, payload), old(process).value))
                     && !poisoned && process == old(process) && log == old(log)
      ensures !ok ==> poisoned && pending == None && log == old(log) + [Broken]
      ensures Leads(old(Abstract()), Abstract())
    {
      ghost var s := Abstract();
      var request := Request(nextId, kind, payload);
      nextId := nextId + 1;
      if !fate.writes {
        PoisonLocked(Broken);
        StepLeads(s, FailToSend(kind, payload));
        return false;
      }
      var w := process.value;
      workers := workers[w := workers[w].(requests := workers[w].requests + [request])];
      pending, sent := Some(Pending(request, w)), sent[request.id := request];
      StepLeads(s, Send(kind, payload));
      return true;
    }

    /** Wait for the reply, the deadline, the end of the stream or an interrupt. */
    method Read(q: Pending, fate: Fate) returns (out: Outcome)
      requires Inv(Abstract()) && pending == Some(q)
      modifies this
      ensures out == Answered(After(old(Abstract()), fate.moves), q, fate)
      ensures Idle() && nextId == old(nextId) && log == old(log) + [out] && OutcomeOk(Abstract(), out)
      ensures poisoned <==> out == Broken || out.Desynchronized?
      ensures out.Desynchronized? ==> out == Desynchronized(q.request, q.worker)
      ensures out.Interrupted? ==> out == Interrupted(q.request, q.worker)
      ensures !poisoned ==>
          process == old(process) && (out.Value? || out.PluginError? || out.Interrupted?) && out.request == q.request
      ensures interrupted == old(interrupted) + if out.Interrupted? then {q.worker} else {}
      ensures Leads(old(Abstract()), Abstract())
    {
      ghost var before := Abstract();
      WorkersRun(fate.moves);
      ghost var s := Abstract();
      var w := process.value;
      if fate.interrupted {
        out := LeaveBehind(q);
        LeadsOn(before, s, Abstract());
        return;
      }
      if fate.expires || workers[w].replies == [] {
        PoisonLocked(Broken);
        StepLeads(s, GiveUp);
        LeadsOn(before, s, Abstract());
        return Broken;
      }
      out := Take(q);
      LeadsOn(before, s, Abstract());
    }

    /** Nothing catches the interrupt: the lock is released, the reader thread stays, and nothing is poisoned. */
    method LeaveBehind(q: Pending) returns (out: Outcome)
      requires Inv(Abstract()) && pending == Some(q)
      modifies this
      ensures Idle() && out == Interrupted(q.request, q.worker) && log == old(log) + [out]
      ensures interrupted == old(interrupted) + {q.worker}
      ensures nextId == old(nextId) && poisoned == old(poisoned) && process == old(process)
      ensures Leads(old(Abstract()), Abstract())
    {
      ghost var s := Abstract();
      var w := q.worker;
      workers := workers[w := workers[w].(readers := workers[w].readers + 1)];
      out := Interrupted(q.request, w);
      pending, interrupted, log := None, interrupted + {w}, log + [out];
      StepLeads(s, Interrupt);
    }

    /** The next reply; one for another request, possible only after an interrupted wait for this worker, poisons the
        sandbox. */
    method Take(q: Pending) returns (out: Outcome)
      requires Inv(Abstract()) && pending == Some(q) && workers[q.worker].replies != []
      modifies this
      ensures Idle() && nextId == old(nextId) && log == old(log) + [out] && OutcomeOk(Abstract(), out)
      ensures
        var reply := old(workers)[q.worker].replies[0];
        out == if reply.id != q.request.id then Desynchronized(q.request, q.worker)
               else if reply.ok then Value(q.request, reply.content) else PluginError(q.request, reply.content)
      ensures poisoned <==> out == Desynchronized(q.request, q.worker)
      ensures !poisoned ==> process == old(process) && (out.Value? || out.PluginError?) && out.request == q.request
      ensures interrupted == old(interrupted)
      ensures Leads(old(Abstract()), Abstract())
    {
      ghost var s := Abstract();
      var reply := workers[q.worker].replies[0];
      workers := workers[q.worker := workers[q.worker].(replies := workers[q.worker].replies[1..])];
      if reply.id != q.request.id {
        out := Desynchronized(q.request, q.worker);
        PoisonLocked(out);
      } else {
        out := if reply.ok then Value(q.request, reply.content) else PluginError(q.request, reply.content);
        pending, log := None, log + [out];
      }
      StepLeads(s, Receive);
      assert OutcomeOk(Abstract(), log[|log| - 1]);
    }

    /** A value is the reply to this call's own request; any failure to talk poisons the sandbox for good, an
        interrupt does not. A reply to another request can arrive only from a worker that an earlier call has left
        behind on an interrupt. What the call does to the sandbox, its workers and the record of requests and replies
        is some run of the protocol's steps. */
    method Call(kind: string, payload: string, fate: Fate) returns (out: Outcome)
      requires Idle()
      modifies this
      ensures !old(poisoned) && (!Ready(old(Abstract()), fate) || !fate.writes) ==> out == Broken
      ensures Ready(old(Abstract()), fate) && fate.writes ==>
        var q := Pending(Request(old(nextId), kind, payload), Callee(old(Abstract())));
        out == Answered(Waited(old(Abstract()), kind, payload, fate), q, fate)
      ensures Idle() && log == old(log) + [out] && OutcomeOk(Abstract(), out)
      ensures old(poisoned) ==> out == Unavailable && poisoned && workers == old(workers) && nextId == old(nextId)
      ensures poisoned <==> out == Unavailable || out == Broken || out.Desynchronized?
      ensures !poisoned ==> nextId == old(nextId) + 1 && process == Some(Callee(old(Abstract())))
      ensures !poisoned ==>
          (out.Value? || out.PluginError? || out.Interrupted?) && out.request == Request(old(nextId), kind, payload)
      ensures interrupted == old(interrupted) + if out.Interrupted? then {out.worker} else {}
      ensures out.Desynchronized? ==> old(process) == Some(out.worker) && out.worker in old(interrupted)
      ensures Leads(old(Abstract()), Abstract())
    {
      ghost var s := Abstract();
      if poisoned {
        log := log + [Unavailable];
        StepLeads(s, Refuse);
        return Unavailable;
      }
      var running := EnsureRunning(fate);
      if !running { return Broken; }
      ghost var t := Abstract();
      var written := Write(kind, payload, fate);
      LeadsOn(s, t, Abstract());
      if !written { return Broken; }
      ghost var u := Abstract();
      out := Read(Pending(Request(nextId - 1, kind, payload), process.value), fate);
      LeadsOn(s, u, Abstract());
    }

    /** Detaches the process without poisoning: the next call starts a new one, ids going on. */
    method Close()
      requires Idle()
      modifies this`process
      ensures Idle() && Abstract() == Next(old(Abstract()), Step.Close)
      ensures process == None && poisoned == old(poisoned) && nextId == old(nextId) && workers == old(workers)
    {
      StepLeads(Abstract(), Step.Close);
      if process == None { return; }
      process := None;
    }
  }
}
