/** `AsyncRateLimiter`: concurrent tasks sharing a semaphore and a sliding window of grant times.

    The section under the lock contains no `await`, so it is one atomic step; everything between
    two such steps of a task may interleave with the other tasks. Times are exact reals of one
    non-decreasing clock. */
module Limiter {

  const WINDOW := 60.0
  const SLACK := 0.05

  datatype Task =
    | Idle
    | Queued                                  // awaiting the semaphore
    | Ready                                   // holds a slot, about to take the lock
    | Sleeping(until: real, waitedOn: real)   // holds a slot, waits for `waitedOn` to leave the window
    | Granted                                 // `acquire` returned
    | Crashed                                 // `_timestamps[0]` of an empty list; the slot is never returned
  {
    predicate HoldsSlot() { !Idle? && !Queued? }
  }

  /** `grants` is the history of all grants; the program itself only keeps `stamps`. */
  datatype State = State(free: int, tasks: map<nat, Task>, stamps: seq<real>, clock: real, grants: seq<real>)

  function Prune(stamps: seq<real>, now: real): seq<real> {
    if stamps == [] then []
    else
      Prune(stamps[..|stamps| - 1], now)
      + (if now - stamps[|stamps| - 1] < WINDOW then [stamps[|stamps| - 1]] else [])
  }

  datatype Step =
    | Request(t: nat)
    | TakeSlot(t: nat)
    | Attempt(t: nat, now: real, stamp: real)
    | Wake(t: nat, now: real)
    | Release(t: nat)

  predicate Enabled(s: State, step: Step) {
    step.t in s.tasks &&
    match step
    case Request(t) => s.tasks[t].Idle?
    case TakeSlot(t) => s.tasks[t].Queued? && s.free > 0
    case Attempt(t, now, stamp) => s.tasks[t].Ready? && s.clock <= now <= stamp
    case Wake(t, now) => s.tasks[t].Sleeping? && s.clock <= now && s.tasks[t].until <= now
    case Release(t) => s.tasks[t].Granted?
  }

  function Moved(s: State, t: nat, task: Task): State { s.(tasks := s.tasks[t := task]) }

  function Next(maxRpm: int, s: State, step: Step): State
    requires Enabled(s, step)
  {
    match step
    case Request(t) => Moved(s, t, Queued)
    case TakeSlot(t) => Moved(s, t, Ready).(free := s.free - 1)
    case Attempt(t, now, stamp) =>
      var kept := Prune(s.stamps, now);
      if |kept| < maxRpm then
        Moved(s, t, Granted).(stamps := kept + [stamp], clock := stamp, grants := s.grants + [stamp])
      else if kept == [] then Moved(s, t, Crashed).(stamps := kept, clock := now)
      else
        Moved(s, t, Sleeping(now + (WINDOW - (now - kept[0]) + SLACK), kept[0])).(stamps := kept, clock := now)
    case Wake(t, now) => Moved(s, t, Ready).(clock := now)
    case Release(t) => Moved(s, t, Idle).(free := s.free + 1)
  }

  predicate Initial(concurrency: nat, s: State) {
    s.free == concurrency && s.stamps == [] && s.grants == [] && forall t :: t in s.tasks ==> s.tasks[t].Idle?
  }

  predicate Trace(maxRpm: int, states: seq<State>, steps: seq<Step>) {
    |states| == |steps| + 1 &&
    forall i :: 0 <= i < |steps| ==> Enabled(states[i], steps[i]) && states[i + 1] == Next(maxRpm, states[i], steps[i])
  }

  // ---------------------------------------------------------------------------------------
  // The invariant
  // ---------------------------------------------------------------------------------------

  function Holders(s: State): set<nat> { set t | t in s.tasks && s.tasks[t].HoldsSlot() }

  predicate Sorted(ts: seq<real>) { forall i, j :: 0 <= i < j < |ts| ==> ts[i] <= ts[j] }

  predicate Apart(maxRpm: int, grants: seq<real>, i: int) {
    0 <= i <= i + maxRpm < |grants| ==> grants[i + maxRpm] - grants[i] >= WINDOW
  }

  /** Grants that are `maxRpm` apart in the history are a whole window apart in time. */
  ghost predicate Spaced(maxRpm: int, grants: seq<real>) {
    if maxRpm <= 0 then grants == []
    else forall i :: Apart(maxRpm, grants, i)
  }

  /** The program's stamps are the recent end of the history; what it dropped has expired. */
  ghost predicate TimeInv(maxRpm: int, grants: seq<real>, stamps: seq<real>, clock: real) {
    && Sorted(grants) && Spaced(maxRpm, grants)
    && (forall i :: 0 <= i < |grants| ==> grants[i] <= clock)
    && |stamps| <= |grants| && stamps == grants[|grants| - |stamps|..]
    && (forall i :: 0 <= i < |grants| - |stamps| ==> clock - grants[i] >= WINDOW)
  }

  predicate SlotInv(concurrency: nat, s: State) {
    s.free >= 0 && |Holders(s)| + s.free == concurrency
  }

  predicate SleepInv(s: State) {
    forall t :: t in s.tasks && s.tasks[t].Sleeping? ==> s.tasks[t].until == s.tasks[t].waitedOn + WINDOW + SLACK
  }

  ghost predicate Inv(maxRpm: int, concurrency: nat, s: State) {
    TimeInv(maxRpm, s.grants, s.stamps, s.clock) && SlotInv(concurrency, s) && SleepInv(s)
  }

  /** On sorted stamps the list comprehension drops a prefix: exactly the expired ones. */
  lemma {:induction false} PruneDropsPrefix(stamps: seq<real>, now: real) returns (k: nat)
    requires Sorted(stamps)
    ensures k <= |stamps| && Prune(stamps, now) == stamps[k..]
    ensures forall i :: 0 <= i < |stamps| ==> (i < k <==> now - stamps[i] >= WINDOW)
  {
    if stamps == [] {
      k := 0;
    } else {
      var n := |stamps| - 1;
      var front := stamps[..n];
      forall i, j | 0 <= i < j < |front| ensures front[i] <= front[j] { assert stamps[i] <= stamps[j]; }
      k := PruneDropsPrefix(front, now);
      assert Prune(stamps, now) == front[k..] + if now - stamps[n] < WINDOW then [stamps[n]] else [];
      forall i | 0 <= i < n ensures i < k <==> now - stamps[i] >= WINDOW { assert front[i] == stamps[i]; }
      if now - stamps[n] >= WINDOW {
        forall i | 0 <= i < n ensures now - stamps[i] >= WINDOW { assert stamps[i] <= stamps[n]; }
        if n > 0 { assert n - 1 < k; }
        k := n + 1;
        assert Prune(stamps, now) == [];
      } else {
        assert stamps[k..] == front[k..] + [stamps[n]];
      }
    }
  }

  lemma PruningKeepsTime(maxRpm: int, grants: seq<real>, stamps: seq<real>, clock: real, now: real)
    requires TimeInv(maxRpm, grants, stamps, clock) && clock <= now
    ensures TimeInv(maxRpm, grants, Prune(stamps, now), now)
  {
    var off := |grants| - |stamps|;
    forall i, j | 0 <= i < j < |stamps| ensures stamps[i] <= stamps[j] { assert grants[off + i] <= grants[off + j]; }
    var k := PruneDropsPrefix(stamps, now);
    assert stamps[k..] == grants[off + k..];
    forall i | 0 <= i < off + k ensures now - grants[i] >= WINDOW {
      if i >= off { assert grants[i] == stamps[i - off]; }
    }
  }

  lemma GrantingKeepsTime(maxRpm: int, grants: seq<real>, stamps: seq<real>, now: real, stamp: real)
    requires TimeInv(maxRpm, grants, stamps, now) && |stamps| < maxRpm && now <= stamp
    ensures TimeInv(maxRpm, grants + [stamp], stamps + [stamp], stamp)
  {
    var g := grants + [stamp];
    assert g[|g| - |stamps + [stamp]|..] == stamps + [stamp];
    forall i ensures Apart(maxRpm, g, i) { assert Apart(maxRpm, grants, i); }
  }

  lemma StepKeepsTime(maxRpm: int, s: State, step: Step)
    requires TimeInv(maxRpm, s.grants, s.stamps, s.clock) && Enabled(s, step)
    ensures var s' := Next(maxRpm, s, step); TimeInv(maxRpm, s'.grants, s'.stamps, s'.clock)
  {
    if step.Attempt? {
      PruningKeepsTime(maxRpm, s.grants, s.stamps, s.clock, step.now);
      var kept := Prune(s.stamps, step.now);
      if |kept| < maxRpm { GrantingKeepsTime(maxRpm, s.grants, kept, step.now, step.stamp); }
    }
  }

  lemma StepKeepsSlots(maxRpm: int, concurrency: nat, s: State, step: Step)
    requires SlotInv(concurrency, s) && SleepInv(s) && Enabled(s, step)
    ensures SlotInv(concurrency, Next(maxRpm, s, step)) && SleepInv(Next(maxRpm, s, step))
  {
    var s' := Next(maxRpm, s, step);
    match step
    case TakeSlot(t) => assert Holders(s') == Holders(s) + {t};
    case Release(t) => assert Holders(s') == Holders(s) - {t};
    case _ => assert Holders(s') == Holders(s);
  }

  lemma {:induction false} TraceKeepsInv(maxRpm: int, concurrency: nat, states: seq<State>, steps: seq<Step>, i: nat)
    requires Trace(maxRpm, states, steps) && Initial(concurrency, states[0]) && i < |states|
    ensures Inv(maxRpm, concurrency, states[i])
  {
    if i == 0 {
      assert Holders(states[0]) == {};
    } else {
      TraceKeepsInv(maxRpm, concurrency, states, steps, i - 1);
      StepKeepsTime(maxRpm, states[i - 1], steps[i - 1]);
      StepKeepsSlots(maxRpm, concurrency, states[i - 1], steps[i - 1]);
    }
  }

  // ---------------------------------------------------------------------------------------
  // The promises
  // ---------------------------------------------------------------------------------------

  predicate InWindow(x: real, from: real) { from <= x < from + WINDOW }

  /** How many grants fell into the half-open interval starting at `from`. */
  function Count(grants: seq<real>, from: real): nat {
    if grants == [] then 0
    else Count(grants[..|grants| - 1], from) + if InWindow(grants[|grants| - 1], from) then 1 else 0
  }

  lemma {:induction false} CountSkips(grants: seq<real>, from: real, m: nat)
    requires m <= |grants| && forall i :: 0 <= i < m ==> !InWindow(grants[i], from)
    ensures Count(grants, from) <= |grants| - m
  {
    if grants != [] {
      CountSkips(grants[..|grants| - 1], from, if m == |grants| then m - 1 else m);
    }
  }

  lemma {:induction false} CountIsBounded(maxRpm: int, grants: seq<real>, from: real)
    requires Sorted(grants) && Spaced(maxRpm, grants)
    ensures Count(grants, from) <= if maxRpm < 0 then 0 else maxRpm
  {
    if grants != [] {
      var n := |grants| - 1;
      if !InWindow(grants[n], from) {
        var front := grants[..n];
        forall i ensures Apart(maxRpm, front, i) { assert Apart(maxRpm, grants, i); }
        CountIsBounded(maxRpm, front, from);
      } else if n >= maxRpm {
        var m := n + 1 - maxRpm;
        forall i | 0 <= i < m ensures !InWindow(grants[i], from) {
          assert Apart(maxRpm, grants, i);
        }
        CountSkips(grants, from, m);
      } else {
        CountSkips(grants, from, 0);
      }
    }
  }

  /** At most `max_rpm` grants in any 60 s, and at most `concurrency` slots out, in every run. */
  lemma WindowBound(maxRpm: int, concurrency: nat, states: seq<State>, steps: seq<Step>, i: nat, from: real)
    requires Trace(maxRpm, states, steps) && Initial(concurrency, states[0]) && i < |states|
    ensures Count(states[i].grants, from) <= if maxRpm < 0 then 0 else maxRpm
    ensures |Holders(states[i])| <= concurrency
    ensures Sorted(states[i].stamps)
  {
    TraceKeepsInv(maxRpm, concurrency, states, steps, i);
    CountIsBounded(maxRpm, states[i].grants, from);
  }

  /** In every run a waiting task can go on exactly while fewer than `concurrency` slots are out. */
  lemma SlotIsFreeExactly(maxRpm: int, concurrency: nat, states: seq<State>, steps: seq<Step>, i: nat, t: nat)
    requires Trace(maxRpm, states, steps) && Initial(concurrency, states[0]) && i < |states|
    requires t in states[i].tasks && states[i].tasks[t].Queued?
    ensures Enabled(states[i], TakeSlot(t)) <==> |Holders(states[i])| < concurrency
  {
    TraceKeepsInv(maxRpm, concurrency, states, steps, i);
  }

  lemma {:induction false} PruneKeepsRecent(stamps: seq<real>, now: real, x: real)
    ensures x in Prune(stamps, now) <==> x in stamps && now - x < WINDOW
  {
    if stamps != [] {
      PruneKeepsRecent(stamps[..|stamps| - 1], now, x);
      assert stamps == stamps[..|stamps| - 1] + [stamps[|stamps| - 1]];
    }
  }

  /** The grants of the last 60 s, by their place in the history. */
  ghost function Recent(grants: seq<real>, now: real): set<int> {
    set i | 0 <= i < |grants| && now - grants[i] < 60.0
  }

  ghost function Interval(lo: int, hi: int): set<int>
    decreases hi - lo
  {
    if hi <= lo then {} else Interval(lo, hi - 1) + {hi - 1}
  }

  lemma {:induction false} IntervalMembers(lo: int, hi: int)
    requires lo <= hi
    ensures |Interval(lo, hi)| == hi - lo
    ensures forall k :: k in Interval(lo, hi) <==> lo <= k < hi
    decreases hi - lo
  {
    if lo < hi { IntervalMembers(lo, hi - 1); }
  }

  lemma KeptAreRecent(maxRpm: int, s: State, now: real)
    requires TimeInv(maxRpm, s.grants, s.stamps, s.clock) && s.clock <= now
    ensures
      var kept := Prune(s.stamps, now);
      var first := |s.grants| - |kept|;
      first >= 0 && kept == s.grants[first..] && Recent(s.grants, now) == Interval(first, |s.grants|)
  {
    PruningKeepsTime(maxRpm, s.grants, s.stamps, s.clock, now);
    var kept := Prune(s.stamps, now);
    var first := |s.grants| - |kept|;
    IntervalMembers(first, |s.grants|);
    forall i | first <= i < |s.grants| ensures now - s.grants[i] < 60.0 {
      assert s.grants[i] == kept[i - first];
      PruneKeepsRecent(s.stamps, now, s.grants[i]);
    }
  }

  predicate Oldest(recent: set<int>, k: int) { k in recent && forall j :: j in recent ==> k <= j }

  lemma AttemptedAs(maxRpm: int, s: State, step: Step)
    requires Enabled(s, step) && step.Attempt?
    ensures
      var kept, s' := Prune(s.stamps, step.now), Next(maxRpm, s, step);
      && s'.grants == (if |kept| < maxRpm then s.grants + [step.stamp] else s.grants)
      && s'.tasks[step.t] == if |kept| < maxRpm then Granted else if kept == [] then Crashed
                             else Sleeping(kept[0] + 60.05, kept[0])
  {
    hide Prune;
  }

  lemma RecentCount(maxRpm: int, s: State, now: real, oldest: int)
    requires TimeInv(maxRpm, s.grants, s.stamps, s.clock) && s.clock <= now
    ensures
      var recent, kept := Recent(s.grants, now), Prune(s.stamps, now);
      && |recent| == |kept| && (recent == {} <==> kept == [])
      && (Oldest(recent, oldest) ==> 0 <= oldest < |s.grants| && kept != [] && s.grants[oldest] == kept[0])
  {
    KeptAreRecent(maxRpm, s, now);
    hide Recent, Prune, TimeInv, Interval;
    var first := |s.grants| - |Prune(s.stamps, now)|;
    IntervalMembers(first, |s.grants|);
    if first < |s.grants| { assert first in Recent(s.grants, now); }
  }

  /** In every run an attempt is granted exactly when fewer than `max_rpm` grants were made in the 60 s before it;
      otherwise it sleeps until 50 ms after the oldest of them is a minute old. */
  lemma GrantsExactly(maxRpm: int, concurrency: nat, states: seq<State>, steps: seq<Step>, i: nat, oldest: int)
    requires Trace(maxRpm, states, steps) && Initial(concurrency, states[0]) && i < |steps| && steps[i].Attempt?
    ensures
      var s, s', t := states[i], states[i + 1], steps[i].t;
      var recent := Recent(s.grants, steps[i].now);
      && t in s'.tasks && (s'.tasks[t].Granted? <==> |recent| < maxRpm)
      && s'.grants == (if |recent| < maxRpm then s.grants + [steps[i].stamp] else s.grants)
      && (maxRpm <= |recent| && Oldest(recent, oldest) ==>
            s'.tasks[t] == Sleeping(s.grants[oldest] + 60.05, s.grants[oldest]))
      && (maxRpm <= |recent| && recent == {} ==> s'.tasks[t].Crashed?)
  {
    TraceKeepsInv(maxRpm, concurrency, states, steps, i);
    hide Recent, Prune, TimeInv, Next;
    AttemptedAs(maxRpm, states[i], steps[i]);
    RecentCount(maxRpm, states[i], steps[i].now, oldest);
  }

  /** A task put to sleep is due strictly later than it was told to. */
  lemma SleepIsPositive(maxRpm: int, s: State, t: nat, now: real, stamp: real)
    requires Enabled(s, Attempt(t, now, stamp)) && Next(maxRpm, s, Attempt(t, now, stamp)).tasks[t].Sleeping?
    ensures Next(maxRpm, s, Attempt(t, now, stamp)).tasks[t].until > now
  {
    var kept := Prune(s.stamps, now);
    PruneKeepsRecent(s.stamps, now, kept[0]);
  }

  /** A task that wakes finds the stamp it waited for gone from the window. */
  lemma WakersFindRoom(maxRpm: int, concurrency: nat, states: seq<State>, steps: seq<Step>, i: nat, t: nat, now: real,
      later: real)
    requires Trace(maxRpm, states, steps) && Initial(concurrency, states[0]) && i < |states|
    requires t in states[i].tasks && states[i].tasks[t].Sleeping? && Enabled(states[i], Wake(t, now)) && now <= later
    ensures states[i].tasks[t].waitedOn !in Prune(Next(maxRpm, states[i], Wake(t, now)).stamps, later)
  {
    TraceKeepsInv(maxRpm, concurrency, states, steps, i);
    PruneKeepsRecent(states[i].stamps, later, states[i].tasks[t].waitedOn);
  }

  // ---------------------------------------------------------------------------------------
  // The object
  // ---------------------------------------------------------------------------------------

  class AsyncRateLimiter {
    const maxRpm: int
    const concurrency: nat
    var free: int
    var stamps: seq<real>
    ghost var tasks: map<nat, Task>
    ghost var clock: real
    ghost var grants: seq<real>

    ghost function Abstract(): State reads this { State(free, tasks, stamps, clock, grants) }

    constructor (maxRpm: int, concurrency: nat, ghost ids: set<nat>)
      ensures this.maxRpm == maxRpm && this.concurrency == concurrency
      ensures Initial(concurrency, Abstract()) && tasks.Keys == ids
    {
      this.maxRpm, this.concurrency, free, stamps := maxRpm, concurrency, concurrency, [];
      tasks, clock, grants := map t | t in ids :: Idle, 0.0, [];
    }

    method Take(ghost t: nat)
      requires Enabled(Abstract(), TakeSlot(t))
      modifies this
      ensures Abstract() == Next(maxRpm, old(Abstract()), TakeSlot(t))
    {
      free := free - 1;
      tasks := tasks[t := Ready];
    }

    /** One pass of the loop under the lock; the clock is read again for the stored stamp. */
    method TryGrant(ghost t: nat, now: real, stamp: real) returns (granted: bool, sleep: real, crashed: bool)
      requires Enabled(Abstract(), Attempt(t, now, stamp))
      modifies this
      ensures Abstract() == Next(maxRpm, old(Abstract()), Attempt(t, now, stamp))
      ensures granted <==> tasks[t] == Granted
      ensures crashed <==> tasks[t] == Crashed
      ensures !granted && !crashed ==> tasks[t].Sleeping? && tasks[t].until == now + sleep && sleep > 0.0
    {
      ghost var before := Abstract();
      granted, sleep, crashed := false, 0.0, false;
      stamps := Prune(stamps, now);
      clock := now;
      if |stamps| < maxRpm {
        stamps := stamps + [stamp];
        clock, grants, tasks := stamp, grants + [stamp], tasks[t := Granted];
        granted := true;
      } else if stamps == [] {
        tasks := tasks[t := Crashed];
        crashed := true;
      } else {
        sleep := WINDOW - (now - stamps[0]) + SLACK;
        tasks := tasks[t := Sleeping(now + sleep, stamps[0])];
        SleepIsPositive(maxRpm, before, t, now, stamp);
      }
    }

    method Release(ghost t: nat)
      requires Enabled(Abstract(), Step.Release(t))
      modifies this
      ensures Abstract() == Next(maxRpm, old(Abstract()), Step.Release(t))
    {
      free := free + 1;
      tasks := tasks[t := Idle];
    }
  }
}
