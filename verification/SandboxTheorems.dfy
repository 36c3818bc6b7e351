/** What the sandbox protocol promises over every run. */
module SandboxTheorems {
  import opened Sandbox
  import opened Wrappers

  lemma StepKeepsRequests(s: State, step: Step, w: nat, k: nat)
    requires Inv(s) && Enabled(s, step)
    ensures RequestOk(Next(s, step), w, k)
  {
    var k' := if step.Answer? && w == step.worker then k + 1 else k;
    assert RequestOk(s, w, k') && AnswerOk(s, s.nextId);
    assert step.Answer? ==> DistinctOk(s, step.worker, 0, w, k');
  }

  lemma StepKeepsDistinct(s: State, step: Step, w: nat, k: nat, v: nat, l: nat)
    requires Inv(s) && Enabled(s, step)
    ensures DistinctOk(Next(s, step), w, k, v, l)
  {
    var k' := if step.Answer? && w == step.worker then k + 1 else k;
    var l' := if step.Answer? && v == step.worker then l + 1 else l;
    assert DistinctOk(s, w, k', v, l') && RequestOk(s, w, k') && RequestOk(s, v, l') && AnswerOk(s, s.nextId);
    hide Inv;
  }

  lemma StepKeepsReplies(s: State, step: Step)
    requires Inv(s) && Enabled(s, step)
    ensures var s' := Next(s, step);
      && (forall w, k {:trigger ReplyOk(s', w, k)} :: ReplyOk(s', w, k))
      && (forall id {:trigger AnswerOk(s', id)} :: AnswerOk(s', id))
  {
    var s' := Next(s, step);
    var taken := if step.Receive? then s.pending.value.worker else if step.StrayRead? then step.worker else |s.workers|;
    forall w: nat, k: nat ensures ReplyOk(s', w, k) {
      assert ReplyOk(s, w, if w == taken then k + 1 else k);
      if step.Answer? { assert RequestOk(s, step.worker, 0); }
    }
    forall id: nat ensures AnswerOk(s', id) {
      assert AnswerOk(s, id) && AnswerOk(s, s.nextId);
      if step.Answer? { assert RequestOk(s, step.worker, 0); }
    }
  }

  lemma StepKeepsWorkers(s: State, step: Step)
    requires Inv(s) && Enabled(s, step)
    ensures PendingOk(Next(s, step))
    ensures var s' := Next(s, step); forall w {:trigger WorkerOk(s', w)} :: WorkerOk(s', w)
  {
    var s' := Next(s, step);
    assert s.pending.Some? ==> WorkerOk(s, s.pending.value.worker);
    assert s.current.Some? ==> WorkerOk(s, s.current.value);
    forall w: nat ensures WorkerOk(s', w) { assert WorkerOk(s, w); }
  }

  lemma StepKeepsLog(s: State, step: Step, i: nat)
    requires Inv(s) && Enabled(s, step) && i < |Next(s, step).log|
    ensures OutcomeOk(Next(s, step), Next(s, step).log[i])
  {
    if step.Answer? { assert RequestOk(s, step.worker, 0); }
    if i < |s.log| { assert OutcomeOk(s, s.log[i]); }
    if step.Receive? {
      var w := s.pending.value.worker;
      assert ReplyOk(s, w, 0) && AnswerOk(s, s.workers[w].replies[0].id) && WorkerOk(s, w);
    }
  }

  lemma StepKeepsInv(s: State, step: Step)
    requires Inv(s) && Enabled(s, step)
    ensures Inv(Next(s, step))
  {
    forall w: nat, k: nat ensures RequestOk(Next(s, step), w, k) { StepKeepsRequests(s, step, w, k); }
    forall w: nat, k: nat, v: nat, l: nat ensures DistinctOk(Next(s, step), w, k, v, l) {
      StepKeepsDistinct(s, step, w, k, v, l);
    }
    StepKeepsReplies(s, step);
    StepKeepsWorkers(s, step);
    forall i | 0 <= i < |Next(s, step).log| ensures OutcomeOk(Next(s, step), Next(s, step).log[i]) {
      StepKeepsLog(s, step, i);
    }
  }

  lemma {:induction false} TraceKeepsInv(states: seq<State>, steps: seq<Step>, i: nat)
    requires Trace(states, steps) && i < |states|
    ensures Inv(states[i])
  {
    if i > 0 {
      TraceKeepsInv(states, steps, i - 1);
      StepKeepsInv(states[i - 1], steps[i - 1]);
    }
  }

  /** Over every run of calls, interrupted waits, late replies, crashes, closes and restarts: whatever a call returned
      is what the worker answered to that very request. With a worker no wait for which was interrupted, replies are
      never mixed up and at most one request is in flight. */
  lemma RepliesCorrespond(states: seq<State>, steps: seq<Step>, i: nat, k: nat, w: nat)
    requires Trace(states, steps) && i < |states| && w < |states[i].workers|
    ensures k < |states[i].log| ==> OutcomeOk(states[i], states[i].log[k])
    ensures !states[i].poisoned && w !in states[i].interrupted ==>
      |states[i].workers[w].requests| + |states[i].workers[w].replies| <= 1
    ensures !states[i].poisoned && w !in states[i].interrupted && states[i].pending.None? ==>
      states[i].workers[w].requests == [] && states[i].workers[w].replies == []
  {
    TraceKeepsInv(states, steps, i);
    assert WorkerOk(states[i], w);
  }

  /** A worker is marked exactly by an interrupted wait for its own reply. */
  lemma {:induction false} InterruptedExactly(states: seq<State>, steps: seq<Step>, i: nat, w: nat)
    requires Trace(states, steps) && i < |states|
    ensures w in states[i].interrupted <==>
      exists j :: 0 <= j < i && steps[j].Interrupt? && states[j].pending.Some? && states[j].pending.value.worker == w
  {
    if i > 0 { InterruptedExactly(states, steps, i - 1, w); }
  }

  /** Closing and starting again puts an end to it: the new worker is unmarked. */
  lemma RestartIsClean(states: seq<State>, steps: seq<Step>, i: nat)
    requires Trace(states, steps) && i < |steps| && steps[i].Spawn?
    ensures states[i + 1].current.Some? && states[i + 1].current.value !in states[i + 1].interrupted
  {
    TraceKeepsInv(states, steps, i);
  }

  /** A call is refused only by a poisoned sandbox, and poisons it only when no worker can be started, the worker has
      exited, the pipes fail, or a reply carries another id. */
  lemma FailuresHaveReasons(states: seq<State>, steps: seq<Step>, i: nat)
    requires Trace(states, steps) && i < |steps|
    ensures Unavailable in states[i + 1].log[|states[i].log|..] ==> states[i].poisoned
    ensures !states[i].poisoned && states[i + 1].poisoned ==>
      || (steps[i].FailToSpawn? && states[i].current.None?)
      || (steps[i].FindDead? && states[i].current.Some? && !states[i].workers[states[i].current.value].alive)
      || (steps[i].FailToSend? && states[i].current.Some?)
      || (steps[i].GiveUp? && states[i].pending.Some?)
      || (steps[i].Receive? && states[i].pending.Some?
          && states[i].workers[states[i].pending.value.worker].replies != []
          && states[i].workers[states[i].pending.value.worker].replies[0].id != states[i].pending.value.request.id)
  {
    TraceKeepsInv(states, steps, i);
    hide Inv;
  }

  /** While a call waits no other is begun or refused and nothing is closed, a worker is started only when there is
      none, and a request is sent only to the current worker, which is running. */
  lemma CallsExcludeEachOther(states: seq<State>, steps: seq<Step>, i: nat)
    requires Trace(states, steps) && i < |steps|
    ensures states[i].pending.Some? ==>
      || steps[i].Answer? || steps[i].Crash? || steps[i].StrayRead?
      || steps[i].Receive? || steps[i].GiveUp? || steps[i].Interrupt?
    ensures states[i].pending.None? ==> !steps[i].Receive? && !steps[i].GiveUp? && !steps[i].Interrupt?
    ensures steps[i].Spawn? ==> states[i].current.None? && states[i + 1].workers[|states[i].workers|].alive
    ensures steps[i].Send? ==>
      && states[i].current.Some? && states[i].workers[states[i].current.value].alive
      && states[i + 1].pending ==
          Some(Pending(Request(states[i].nextId, steps[i].kind, steps[i].payload), states[i].current.value))
    ensures steps[i].Close? ==> states[i + 1].current == None
  {
    TraceKeepsInv(states, steps, i);
    hide Inv;
  }

  lemma StaysDead(s: State, step: Step, w: nat)
    requires Enabled(s, step) && w < |s.workers|
    ensures w < |Next(s, step).workers|
    ensures !s.workers[w].alive || step == Step.Crash(w) ==> !Next(s, step).workers[w].alive
    ensures !s.workers[w].alive ==> !(step.Answer? && step.worker == w) && !(step.Send? && s.current == Some(w))
  {
  }

  /** A worker that has exited answers nothing more and is sent nothing more. */
  lemma {:induction false} CrashIsForGood(states: seq<State>, steps: seq<Step>, i: nat, j: nat)
    requires Trace(states, steps) && i < |steps| && steps[i].Crash? && i < j < |states|
    ensures steps[i].worker < |states[j].workers| && !states[j].workers[steps[i].worker].alive
    ensures j < |steps| ==>
      && !(steps[j].Answer? && steps[j].worker == steps[i].worker)
      && !(steps[j].Send? && states[j].current == Some(steps[i].worker))
  {
    var w := steps[i].worker;
    assert Enabled(states[i], steps[i]);
    if i + 1 < j { CrashIsForGood(states, steps, i, j - 1); }
    hide Enabled, Next;
    StaysDead(states[j - 1], steps[j - 1], w);
    if j < |steps| { StaysDead(states[j], steps[j], w); }
  }

  // ---------------------------------------------------------------------------------------
  // When the next call can find a reply out of step
  // ---------------------------------------------------------------------------------------

  /** Some steps lead from `s` to `t`. */
  ghost predicate Leads(s: State, t: State) {
    exists states, steps :: Onward(states, steps) && states[0] == s && states[|states| - 1] == t
  }

  lemma LeadsNowhere(s: State)
    ensures Leads(s, s)
  {
    var none: seq<Step> := [];
    assert Onward([s], none);
  }

  lemma StepLeads(s: State, step: Step)
    requires Inv(s) && Enabled(s, step)
    ensures Inv(Next(s, step)) && Leads(s, Next(s, step))
  {
    StepKeepsInv(s, step);
    assert Onward([s, Next(s, step)], [step]);
  }

  lemma LeadsOn(s: State, t: State, u: State)
    requires Leads(s, t) && Leads(t, u)
    ensures Leads(s, u)
  {
    var a, p :| Onward(a, p) && a[0] == s && a[|a| - 1] == t;
    var b, q :| Onward(b, q) && b[0] == t && b[|b| - 1] == u;
    OnwardJoined(a, p, b, q);
  }

  lemma OnwardJoined(a: seq<State>, p: seq<Step>, b: seq<State>, q: seq<Step>)
    requires Onward(a, p) && Onward(b, q) && a[|a| - 1] == b[0]
    ensures
      var c := a + b[1..];
      Onward(c, p + q) && c[0] == a[0] && c[|c| - 1] == b[|b| - 1]
  {
    var c := a + b[1..];
    forall i | 0 <= i < |p + q| ensures Enabled(c[i], (p + q)[i]) && c[i + 1] == Next(c[i], (p + q)[i]) {
      if i < |p| {
        assert c[i] == a[i] && c[i + 1] == a[i + 1];
      } else {
        assert c[i] == b[i - |p|] && c[i + 1] == b[i - |p| + 1];
      }
    }
  }

  /** Some steps from `s` on make the next call find a reply to another request. */
  ghost predicate CanDesynchronize(s: State) {
    exists states, steps :: Onward(states, steps) && states[0] == s && Desynchronizes(s, states[|states| - 1])
  }

  predicate Desynchronizes(s: State, t: State) {
    |t.log| == |s.log| + 1 && t.log[|s.log|].Desynchronized?
  }

  /** The current worker holds a request or a reply that no call waits for. */
  predicate Lags(s: State) {
    && s.current.Some? && s.current.value < |s.workers| && s.workers[s.current.value].alive
    && (s.workers[s.current.value].requests != [] || s.workers[s.current.value].replies != [])
  }

  /** Nothing is under way to or from the current worker but what the call waits for. */
  predicate InStep(s: State) {
    if s.pending.None? then !Lags(s)
    else s.pending.value.worker < |s.workers| ==>
      var w := s.workers[s.pending.value.worker];
      && (forall k :: 0 <= k < |w.requests| ==> w.requests[k].id == s.pending.value.request.id)
      && forall k :: 0 <= k < |w.replies| ==> w.replies[k].id == s.pending.value.request.id
  }

  lemma StepStaysInStep(s: State, step: Step)
    requires PendingOk(s) && Enabled(s, step) && InStep(s)
    ensures Next(s, step).log == s.log ==> InStep(Next(s, step))
    ensures !Desynchronizes(s, Next(s, step))
  {
  }

  lemma {:induction false} StaysInStep(states: seq<State>, steps: seq<Step>, i: nat)
    requires Onward(states, steps) && Inv(states[0]) && InStep(states[0]) && i < |states|
    ensures Inv(states[i]) && states[0].log <= states[i].log && !Desynchronizes(states[0], states[i])
    ensures states[i].log == states[0].log ==> InStep(states[i])
  {
    if i > 0 {
      StaysInStep(states, steps, i - 1);
      StepKeepsInv(states[i - 1], steps[i - 1]);
      StepGoesOnward(states[i - 1], steps[i - 1]);
      if states[i - 1].log == states[0].log { StepStaysInStep(states[i - 1], steps[i - 1]); }
    }
  }

  lemma LaggingReply(s: State, k: nat)
    requires Inv(s) && s.current.Some? && k < |s.workers[s.current.value].replies|
    ensures s.workers[s.current.value].replies[k].id < s.nextId
  {
    var w := s.current.value;
    assert ReplyOk(s, w, k) && AnswerOk(s, s.workers[w].replies[k].id);
  }

  lemma LaggingRequest(s: State, k: nat)
    requires Inv(s) && s.current.Some? && k < |s.workers[s.current.value].requests|
    ensures s.workers[s.current.value].requests[k].id < s.nextId
  {
    var w := s.current.value;
    assert RequestOk(s, w, k) && AnswerOk(s, s.workers[w].requests[k].id);
  }

  /** An idle sandbox's next call can find a reply out of step exactly when the worker it would ask is running and still
      has an old request before it or an old reply behind it. */
  lemma NextCallCanDesynchronize(s: State)
    requires Inv(s) && s.pending.None? && !s.poisoned
    ensures CanDesynchronize(s) <==> Lags(s)
  {
    if Lags(s) {
      var w := s.current.value;
      var sent := Next(s, Send("", ""));
      if s.workers[w].replies != [] {
        LaggingReply(s, 0);
        assert Onward([s, sent, Next(sent, Receive)], [Send("", ""), Receive]);
      } else {
        LaggingRequest(s, 0);
        var answered := Next(sent, Answer(w, true, ""));
        var states := [s, sent, answered, Next(answered, Receive)];
        assert Onward(states, [Send("", ""), Answer(w, true, ""), Receive]);
        assert Desynchronizes(s, states[3]);
      }
    } else if states, steps :| Onward(states, steps) && states[0] == s && Desynchronizes(s, states[|states| - 1]) {
      StaysInStep(states, steps, |states| - 1);
    }
  }

  /** The states of the run below: one worker, the requests on their way to it, who waits, and what was sent. */
  function Example(requests: seq<Request>, pending: Option<Request>, sent: map<nat, Request>, log: seq<Outcome>): State
  {
    State([Worker(requests, [], true, |log|)], Some(0), false, |requests| + 1,
          if pending.Some? then Some(Pending(pending.value, 0)) else None, sent, map[],
          if log == [] then {} else {0}, log)
  }

  lemma BeforeTheInterrupt(q: Request)
    requires q.id == 1
    ensures Enabled(START, Spawn) && Next(START, Spawn) == Example([], None, map[], [])
    ensures
      var s := Example([], None, map[], []);
      Enabled(s, Send(q.kind, q.payload)) && Next(s, Send(q.kind, q.payload)) == Example([q], Some(q), map[1 := q], [])
    ensures
      var s := Example([q], Some(q), map[1 := q], []);
      Enabled(s, Interrupt) && Next(s, Interrupt) == Example([q], None, map[1 := q], [Interrupted(q, 0)])
  {
    assert [] + [q] == [q] && [] + [Interrupted(q, 0)] == [Interrupted(q, 0)];
  }

  lemma AfterTheInterrupt(q: Request, r: Request, s: State, t: State)
    requires q.id == 1 && r.id == 2 && s == Example([q], None, map[1 := q], [Interrupted(q, 0)])
    requires t == Example([q, r], Some(r), map[1 := q, 2 := r], [Interrupted(q, 0)])
    ensures Enabled(s, Send(r.kind, r.payload)) && Next(s, Send(r.kind, r.payload)) == t
    ensures Enabled(t, Answer(0, true, "")) && Enabled(Next(t, Answer(0, true, "")), Receive)
    ensures Next(Next(t, Answer(0, true, "")), Receive).log == [Interrupted(q, 0), Desynchronized(r, 0)]
  {
    assert [q] + [r] == [q, r];
  }

  /** An interrupted wait, and the next call is out of step: two requests in flight, and the answer to the first taken
      for the answer to the second. */
  lemma InterruptExample(a: string, b: string) returns (states: seq<State>, steps: seq<Step>)
    ensures Trace(states, steps)
    ensures exists i :: 0 <= i < |states| && |states[i].workers| == 1 && |states[i].workers[0].requests| == 2
    ensures states[|states| - 1].log ==
            [Interrupted(Request(1, "call", a), 0), Desynchronized(Request(2, "call", b), 0)]
  {
    var q, r := Request(1, "call", a), Request(2, "call", b);
    BeforeTheInterrupt(q);
    var left := Example([q], None, map[1 := q], [Interrupted(q, 0)]);
    var both := Example([q, r], Some(r), map[1 := q, 2 := r], [Interrupted(q, 0)]);
    AfterTheInterrupt(q, r, left, both);
    var answered := Next(both, Answer(0, true, ""));
    steps := [Spawn, Send("call", a), Interrupt, Send("call", b), Answer(0, true, ""), Receive];
    states := [START, Example([], None, map[], []), Example([q], Some(q), map[1 := q], []), left, both, answered,
               Next(answered, Receive)];
    assert states[4] == both;
  }

  // ---------------------------------------------------------------------------------------
  // Later states
  // ---------------------------------------------------------------------------------------

  predicate SameButRefused(a: State, b: State) {
    && (a.poisoned ==> b.poisoned && b.nextId == a.nextId && a.log <= b.log)
    && (a.poisoned ==> forall k :: |a.log| <= k < |b.log| ==> b.log[k] == Unavailable)
  }

  lemma StepGoesOnward(s: State, step: Step)
    requires PendingOk(s) && Enabled(s, step)
    ensures SameButRefused(s, Next(s, step))
    ensures s.nextId <= Next(s, step).nextId && s.log <= Next(s, step).log
  {
  }

  lemma {:induction false} OnwardFrom(states: seq<State>, steps: seq<Step>, i: nat, j: nat)
    requires Trace(states, steps) && i <= j < |states|
    ensures SameButRefused(states[i], states[j])
    ensures states[i].nextId <= states[j].nextId && states[i].log <= states[j].log
  {
    if i < j {
      OnwardFrom(states, steps, i, j - 1);
      TraceKeepsInv(states, steps, j - 1);
      StepGoesOnward(states[j - 1], steps[j - 1]);
    }
  }

  /** Once poisoned, every later call is refused and nothing is ever sent again. */
  lemma PoisonIsForever(states: seq<State>, steps: seq<Step>, i: nat, j: nat, k: nat)
    requires Trace(states, steps) && i <= j < |states| && states[i].poisoned && |states[i].log| <= k < |states[j].log|
    ensures states[j].poisoned && states[j].log[k] == Unavailable
    ensures j < |steps| ==> !steps[j].Send? && !steps[j].Spawn? && !steps[j].Receive?
  {
    OnwardFrom(states, steps, i, j);
    TraceKeepsInv(states, steps, j);
  }

  /** Request ids strictly increase, across restarts too. */
  lemma IdsIncrease(states: seq<State>, steps: seq<Step>, i: nat, j: nat)
    requires Trace(states, steps) && i < j < |steps| && steps[i].Send? && steps[j].Send?
    ensures states[i + 1].pending.value.request.id < states[j + 1].pending.value.request.id
  {
    OnwardFrom(states, steps, i + 1, j);
  }

  /** A reply, also one that says an error, ends the call but not the channel, unless it carries another request's id,
      which only an interrupted wait for the same worker can bring about. Without one, the pipes are then empty. */
  lemma ErrorRepliesAreSurvivable(states: seq<State>, steps: seq<Step>, i: nat)
    requires Trace(states, steps) && i < |steps| && steps[i].Receive?
    ensures states[i + 1].poisoned <==>
        states[i].workers[states[i].pending.value.worker].replies[0].id != states[i].pending.value.request.id
    ensures states[i + 1].poisoned ==> states[i].pending.value.worker in states[i].interrupted
    ensures !states[i + 1].poisoned ==>
      && states[i + 1].current == Some(states[i].pending.value.worker)
      && (states[i].workers[states[i].pending.value.worker].alive ==> Enabled(states[i + 1], Send("", "")))
    ensures states[i].pending.value.worker !in states[i].interrupted ==>
      && states[i + 1].workers[states[i].pending.value.worker].requests == []
      && states[i + 1].workers[states[i].pending.value.worker].replies == []
  {
    TraceKeepsInv(states, steps, i);
    assert WorkerOk(states[i], states[i].pending.value.worker);
  }
}
