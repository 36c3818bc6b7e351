/** `PluginSandbox` and the worker loop at the other end of its pipes.
    Frames travel whole (see Framing), also when two reader threads wait for them; a lock makes each `call` and each
    `close` exclude the others, but workers run, reply late, crash and linger at any point in between. A worker's
    handler is arbitrary. */
module Sandbox {
  import opened Wrappers

  datatype Request = Request(id: nat, kind: string, payload: string)
  datatype Reply = Reply(id: nat, ok: bool, content: string)

  /** One worker process with its two pipes, and how many reader threads of interrupted calls still wait on it. */
  datatype Worker = Worker(requests: seq<Request>, replies: seq<Reply>, alive: bool, readers: nat)

  /** A call that has written its request and still holds the lock. */
  datatype Pending = Pending(request: Request, worker: nat)

  datatype Outcome =
    | Value(request: Request, content: string)
    | PluginError(request: Request, content: string)
    | Desynchronized(request: Request, worker: nat)
    | Interrupted(request: Request, worker: nat)   // a KeyboardInterrupt during the wait, which nothing catches
    | Broken                                       // spawn, write, read or deadline failure
    | Unavailable                                  // refused because of an earlier failure

  /** `sent` and `answered` record each request written and what it was answered with, `interrupted` the workers
      a wait for which was ever interrupted, and `log` what every call came to; the program keeps none of them. */
  datatype State = State(workers: seq<Worker>, current: Option<nat>, poisoned: bool, nextId: nat,
                         pending: Option<Pending>, sent: map<nat, Request>, answered: map<nat, (Request, Reply)>,
                         interrupted: set<nat>, log: seq<Outcome>)

  const START := State([], None, false, 1, None, map[], map[], {}, [])

  datatype Step =
    | Refuse                                        // call on a poisoned sandbox
    | FailToSpawn                                   // first use, bad executable
    | FindDead                                      // poll() shows the worker has exited
    | Spawn                                         // first use, or first use after a close
    | Send(kind: string, payload: string)
    | FailToSend(kind: string, payload: string)     // broken pipe, or a body over the frame limit
    | Answer(worker: nat, ok: bool, content: string)
    | Crash(worker: nat)
    | Receive
    | GiveUp                                        // timed out, EOF, or an unreadable reply
    | Interrupt                                     // the wait is interrupted; lock released, reader thread left behind
    | StrayRead(worker: nat)                        // a reader thread left behind takes the next reply
    | Close

  predicate Enabled(s: State, step: Step) {
    match step
    case Refuse => s.pending.None? && s.poisoned
    case FailToSpawn => s.pending.None? && !s.poisoned && s.current.None?
    case FindDead =>
      && s.pending.None? && !s.poisoned && s.current.Some?
      && s.current.value < |s.workers| && !s.workers[s.current.value].alive
    case Spawn => s.pending.None? && !s.poisoned && s.current.None?
    case Send(_, _) =>
      && s.pending.None? && !s.poisoned && s.current.Some?
      && s.current.value < |s.workers| && s.workers[s.current.value].alive
    case FailToSend(_, _) => s.pending.None? && !s.poisoned && s.current.Some?
    case Answer(w, _, _) => w < |s.workers| && s.workers[w].alive && s.workers[w].requests != []
    case Crash(w) => w < |s.workers|
    case Receive =>
      && s.pending.Some? && s.pending.value.worker < |s.workers|
      && s.workers[s.pending.value.worker].replies != []
    case GiveUp => s.pending.Some?
    case Interrupt => s.pending.Some? && s.pending.value.worker < |s.workers|
    case StrayRead(w) => w < |s.workers| && s.workers[w].readers > 0 && s.workers[w].replies != []
    case Close => s.pending.None?
  }

  /** `_poison_locked`, after which the call raises. Killing the worker may or may not succeed. */
  function Poison(s: State, outcome: Outcome): State {
    s.(poisoned := true, current := None, pending := None, log := s.log + [outcome])
  }

  function Next(s: State, step: Step): State
    requires Enabled(s, step)
  {
    match step
    case Refuse => s.(log := s.log + [Unavailable])
    case FailToSpawn => Poison(s, Broken)
    case FindDead => Poison(s, Broken)
    case Spawn => s.(workers := s.workers + [Worker([], [], true, 0)], current := Some(|s.workers|))
    case Send(kind, payload) =>
      var request := Request(s.nextId, kind, payload);
      var w := s.current.value;
      s.(workers := s.workers[w := s.workers[w].(requests := s.workers[w].requests + [request])],
         nextId := s.nextId + 1, pending := Some(Pending(request, w)), sent := s.sent[request.id := request])
    case FailToSend(_, _) => Poison(s.(nextId := s.nextId + 1), Broken)
    case Answer(w, ok, content) =>
      var request := s.workers[w].requests[0];
      var reply := Reply(request.id, ok, content);
      s.(workers := s.workers[w := s.workers[w].(requests := s.workers[w].requests[1..],
                                                 replies := s.workers[w].replies + [reply])],
         answered := s.answered[request.id := (request, reply)])
    case Crash(w) => s.(workers := s.workers[w := s.workers[w].(alive := false)])
    case Receive =>
      var w := s.pending.value.worker;
      var request := s.pending.value.request;
      var reply := s.workers[w].replies[0];
      var read := s.(workers := s.workers[w := s.workers[w].(replies := s.workers[w].replies[1..])]);
      if reply.id != request.id then Poison(read, Desynchronized(request, w))
      else
        read.(pending := None,
              log := s.log + [if reply.ok then Value(request, reply.content) else PluginError(request, reply.content)])
    case GiveUp => Poison(s, Broken)
    case Interrupt =>
      var w := s.pending.value.worker;
      s.(workers := s.workers[w := s.workers[w].(readers := s.workers[w].readers + 1)], pending := None,
         interrupted := s.interrupted + {w}, log := s.log + [Interrupted(s.pending.value.request, w)])
    case StrayRead(w) =>
      s.(workers := s.workers[w :=
          s.workers[w].(readers := s.workers[w].readers - 1, replies := s.workers[w].replies[1..])])
    case Close => s.(current := None)
  }

  /** Steps from any state on. */
  ghost predicate Onward(states: seq<State>, steps: seq<Step>) {
    && |states| == |steps| + 1
    && forall i :: 0 <= i < |steps| ==> Enabled(states[i], steps[i]) && states[i + 1] == Next(states[i], steps[i])
  }

  ghost predicate Trace(states: seq<State>, steps: seq<Step>) { Onward(states, steps) && states[0] == START }

  // ---------------------------------------------------------------------------------------
  // The invariant
  // ---------------------------------------------------------------------------------------

  /** Either the request still waits in the worker's pipe or its reply does; nothing else is in flight. */
  predicate CarriesOnly(w: Worker, request: Request) {
    || (w.requests == [request] && w.replies == [])
    || (w.requests == [] && |w.replies| == 1 && w.replies[0].id == request.id)
  }

  /** Until a wait for it is interrupted, only the pending request is in flight to a worker, and no reader thread is
      left behind. */
  predicate WorkerOk(s: State, w: nat) {
    w < |s.workers| && !s.poisoned && w !in s.interrupted ==>
      && s.workers[w].readers == 0
      && if s.pending.Some? && s.pending.value.worker == w then CarriesOnly(s.workers[w], s.pending.value.request)
         else s.workers[w].requests == [] && s.workers[w].replies == []
  }

  /** A request on its way was sent and is not answered yet. */
  predicate RequestOk(s: State, w: nat, k: nat) {
    w < |s.workers| && k < |s.workers[w].requests| ==>
      var q := s.workers[w].requests[k];
      q.id in s.sent && s.sent[q.id] == q && q.id !in s.answered
  }

  /** Two requests on their way have different ids. */
  predicate DistinctOk(s: State, w: nat, k: nat, v: nat, l: nat) {
    && w < |s.workers| && k < |s.workers[w].requests|
    && v < |s.workers| && l < |s.workers[v].requests|
    && (w, k) != (v, l) ==>
      s.workers[w].requests[k].id != s.workers[v].requests[l].id
  }

  /** A reply on its way is the one made for the request of its id. */
  predicate ReplyOk(s: State, w: nat, k: nat) {
    w < |s.workers| && k < |s.workers[w].replies| ==>
      s.workers[w].replies[k].id in s.answered && s.answered[s.workers[w].replies[k].id].1 == s.workers[w].replies[k]
  }

  predicate AnswerOk(s: State, id: nat) {
    && (id in s.sent ==> id < s.nextId && s.sent[id].id == id)
    && (id in s.answered ==> id in s.sent && s.answered[id].0 == s.sent[id] && s.answered[id].1.id == id)
  }

  /** A returned value is the worker's reply to that very request; a mismatch is seen only with a worker a wait for
      which was interrupted. */
  predicate OutcomeOk(s: State, outcome: Outcome) {
    match outcome
    case Value(q, content) => q.id in s.answered && s.answered[q.id] == (q, Reply(q.id, true, content))
    case PluginError(q, content) => q.id in s.answered && s.answered[q.id] == (q, Reply(q.id, false, content))
    case Desynchronized(_, w) => w in s.interrupted
    case Interrupted(_, w) => w in s.interrupted
    case _ => true
  }

  predicate PendingOk(s: State) {
    && (s.poisoned ==> s.current == None && s.pending == None)
    && (s.current.Some? ==> s.current.value < |s.workers|)
    && (forall w :: w in s.interrupted ==> w < |s.workers|)
    && (s.pending.Some? ==>
          var q := s.pending.value.request;
          s.current == Some(s.pending.value.worker) && q.id in s.sent && s.sent[q.id] == q)
  }

  ghost predicate Inv(s: State) {
    && PendingOk(s)
    && (forall w {:trigger WorkerOk(s, w)} :: WorkerOk(s, w))
    && (forall w, k {:trigger RequestOk(s, w, k)} :: RequestOk(s, w, k))
    && (forall w, k, v, l {:trigger DistinctOk(s, w, k, v, l)} :: DistinctOk(s, w, k, v, l))
    && (forall w, k {:trigger ReplyOk(s, w, k)} :: ReplyOk(s, w, k))
    && (forall id {:trigger AnswerOk(s, id)} :: AnswerOk(s, id))
    && (forall i :: 0 <= i < |s.log| ==> OutcomeOk(s, s.log[i]))
  }
}
