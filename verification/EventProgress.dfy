/** What the pipeline can always get done: the flush thread alone catches up with the bus, and `stop` can always
    come to its end. */
module EventProgress {
  import opened EventBatches
  import opened EventPipeline

  // ---- Going on ----

  /** How many events a hand still has to write. */
  function Unwritten(d: Data, w: Who): nat {
    |Rest(d.takes, HandOf(d, w))|
  }

  /** The step the flush thread takes next, if it has not left its loop and the lock is free for it. */
  function FlusherStep(s: State): Step {
    match s.flusher
    case Checking => FlusherCheck
    case Waiting => FlusherTake
    case Took => FlusherTest
    case WantsFile => FlusherLock
    case Writing => if MoreToWrite(s.data, Flusher) then FlusherWrite else FlusherUnlock
    case Exited => FlusherCheck
  }

  /** How far it is from there to the check at the head of its loop. */
  function FlusherLeft(s: State): nat {
    match s.flusher
    case Exited => 0
    case Checking => 1
    case Writing => 2 + Unwritten(s.data, Flusher)
    case WantsFile => 3 + Unwritten(s.data, Flusher)
    case Took => 4 + Unwritten(s.data, Flusher)
    case Waiting => 5 + |s.data.buffer|
  }

  lemma FlusherCan(s: State, isOpen: bool, finalFlush: bool)
    requires Inv(s, isOpen, finalFlush) && !s.flusher.Exited? && !s.client.Syncing?
    ensures Can(s, FlusherStep(s))
  {
    HolderCases(s.fileLock);
  }

  lemma OneLessToWrite(d: Data, w: Who)
    requires MoreToWrite(d, w)
    ensures Unwritten(WriteOne(d, w), w) == Unwritten(d, w) - 1
  {
  }

  lemma LockedHand(d: Data, w: Who)
    requires HandOf(d, w).Holds?
    ensures Unwritten(Begin(d, w), w) == Unwritten(d, w)
  {
  }

  lemma TakenHand(d: Data, w: Who)
    ensures Unwritten(Take(d, w), w) == |d.buffer|
  {
  }

  /** Each of its steps brings it closer, but for the check itself while the writer runs. */
  lemma FlusherComesCloser(s: State, isOpen: bool, finalFlush: bool)
    requires Inv(s, isOpen, finalFlush) && !s.flusher.Exited? && !s.client.Syncing?
    requires s.flusher.Checking? ==> !s.running
    ensures Can(s, FlusherStep(s)) && FlusherLeft(Do(s, FlusherStep(s))) < FlusherLeft(s)
    ensures Do(s, FlusherStep(s)).client == s.client && Do(s, FlusherStep(s)).bus == s.bus
  {
    FlusherCan(s, isOpen, finalFlush);
    match s.flusher
    case Waiting => TakenHand(s.data, Flusher);
    case WantsFile => LockedHand(s.data, Flusher);
    case Writing => if MoreToWrite(s.data, Flusher) { OneLessToWrite(s.data, Flusher); }
    case _ =>
  }

  lemma OneStepFirst(s: State, step: Step, rest: seq<Step>)
    requires Can(s, step)
    ensures RunFrom(s, [step] + rest) == RunFrom(Do(s, step), rest)
  {
    assert ([step] + rest)[1..] == rest;
  }

  // ---- The flush thread alone ----

  /** Nothing waits anywhere: not on the bus, not in the buffer, not in a hand. */
  predicate CaughtUp(s: State) {
    s.bus == [] && s.data.buffer == [] && s.data.flusher.Empty? && s.data.client.Empty?
  }

  predicate OfFlushThread(step: Step) {
    || step.Deliver? || step.FlusherCheck? || step.FlusherTake? || step.FlusherTest? || step.FlusherLock?
    || step.FlusherWrite? || step.FlusherUnlock?
  }

  /** What is left of the flush thread's round, the wait at its head being the end of it. */
  function RoundLeft(s: State): nat {
    match s.flusher
    case Waiting => 0
    case _ => FlusherLeft(s)
  }

  function CatchingUp(s: State): Step {
    if s.bus != [] then Deliver else FlusherStep(s)
  }

  lemma CatchingUpGoesOn(s: State, finalFlush: bool)
    requires Inv(s, true, finalFlush) && s.running && s.isOpen && s.client.Idle? && !s.flusher.Exited? && !CaughtUp(s)
    ensures Can(s, CatchingUp(s)) && OfFlushThread(CatchingUp(s))
    ensures var s' := Do(s, CatchingUp(s));
            && s'.running && s'.isOpen && s'.client.Idle? && !s'.flusher.Exited?
            && (|s'.bus| < |s.bus| ||
                (s'.bus == s.bus && |s'.data.buffer| < |s.data.buffer|) ||
                (s'.bus == s.bus && s'.data.buffer == s.data.buffer && RoundLeft(s') < RoundLeft(s)))
  {
    if s.bus == [] {
      FlusherCan(s, true, finalFlush);
      if !s.flusher.Checking? { FlusherComesCloser(s, true, finalFlush); }
    }
  }

  lemma {:induction false} CatchUp(s: State, finalFlush: bool) returns (steps: seq<Step>)
    requires Inv(s, true, finalFlush) && s.running && s.isOpen && s.client.Idle? && !s.flusher.Exited?
    ensures RunFrom(s, steps).Reached? && CaughtUp(RunFrom(s, steps).state)
    ensures forall i :: 0 <= i < |steps| ==> OfFlushThread(steps[i])
    ensures RunFrom(s, steps).state.isOpen
    decreases |s.bus|, |s.data.buffer|, RoundLeft(s)
  {
    if CaughtUp(s) { return []; }
    CatchingUpGoesOn(s, finalFlush);
    StepInv(s, CatchingUp(s), true, finalFlush);
    var rest := CatchUp(Do(s, CatchingUp(s)), finalFlush);
    steps := [CatchingUp(s)] + rest;
    OneStepFirst(s, CatchingUp(s), rest);
  }

  // ---- Coming to an end ----

  /** The step that brings `stop` on. */
  function StopStep(s: State): Step {
    match s.client
    case Joining => if s.flusher.Exited? then StopJoin else FlusherStep(s)
    case Draining => if s.bus != [] then Deliver else StopDrain
    case LastTake => StopTake
    case Holding(_) => SyncLock
    case Syncing(_) => if MoreToWrite(s.data, Client) then SyncWrite else SyncUnlock
    case Closing => StopClose
    case Idle => StopCall
  }

  function ClientLeft(c: ClientAt): nat {
    match c
    case Idle => 0
    case Closing => 1
    case Syncing(_) => 2
    case Holding(_) => 3
    case LastTake => 4
    case Draining => 5
    case Joining => 6
  }

  function StopLeft(s: State): nat {
    match s.client
    case Joining => FlusherLeft(s)
    case Syncing(_) => Unwritten(s.data, Client)
    case _ => 0
  }

  lemma StopCan(s: State, isOpen: bool, finalFlush: bool)
    requires Inv(s, isOpen, finalFlush) && !s.running && Stopping(s.client)
    ensures Can(s, StopStep(s)) && !StopStep(s).Emit?
  {
    HolderCases(s.fileLock);
    if s.client.Joining? && !s.flusher.Exited? { FlusherCan(s, isOpen, finalFlush); }
  }

  lemma StopComesCloser(s: State, isOpen: bool, finalFlush: bool)
    requires Inv(s, isOpen, finalFlush) && !s.running && Stopping(s.client) && Can(s, StopStep(s))
    ensures var s' := Do(s, StopStep(s));
            && !s'.running && (Stopping(s'.client) || Stopped(s'))
            && (ClientLeft(s'.client) < ClientLeft(s.client) ||
                (s'.client == s.client && |s'.bus| < |s.bus|) ||
                (s'.client == s.client && s'.bus == s.bus && StopLeft(s') < StopLeft(s)))
  {
    match s.client
    case Joining => if !s.flusher.Exited? { FlusherComesCloser(s, isOpen, finalFlush); }
    case Syncing(_) => if MoreToWrite(s.data, Client) { OneLessToWrite(s.data, Client); }
    case _ =>
  }

  lemma StopGoesOn(s: State, isOpen: bool, finalFlush: bool) returns (s': State)
    requires Inv(s, isOpen, finalFlush) && !s.running && Stopping(s.client)
    ensures Can(s, StopStep(s)) && !StopStep(s).Emit? && s' == Do(s, StopStep(s))
    ensures Inv(s', isOpen, finalFlush) && !s'.running && (Stopping(s'.client) || Stopped(s'))
    ensures ClientLeft(s'.client) < ClientLeft(s.client) ||
            (s'.client == s.client && |s'.bus| < |s.bus|) ||
            (s'.client == s.client && s'.bus == s.bus && StopLeft(s') < StopLeft(s))
  {
    StopCan(s, isOpen, finalFlush);
    StopComesCloser(s, isOpen, finalFlush);
    StepInv(s, StopStep(s), isOpen, finalFlush);
    s' := Do(s, StopStep(s));
  }

  predicate Silent(steps: seq<Step>) {
    forall i :: 0 <= i < |steps| ==> !steps[i].Emit?
  }

  lemma SilentFirst(step: Step, rest: seq<Step>)
    requires !step.Emit? && Silent(rest)
    ensures Silent([step] + rest)
  {
  }

  lemma {:induction false} Finish(s: State, isOpen: bool, finalFlush: bool) returns (steps: seq<Step>)
    requires Inv(s, isOpen, finalFlush) && !s.running && (Stopping(s.client) || Stopped(s))
    ensures RunFrom(s, steps).Reached? && Stopped(RunFrom(s, steps).state) && Silent(steps)
    decreases ClientLeft(s.client), |s.bus|, StopLeft(s)
  {
    if Stopped(s) { return []; }
    var s' := StopGoesOn(s, isOpen, finalFlush);
    var rest := Finish(s', isOpen, finalFlush);
    steps := [StopStep(s)] + rest;
    OneStepFirst(s, StopStep(s), rest);
    SilentFirst(StopStep(s), rest);
  }

  // ---- Results ----

  lemma NeverExitsWhileRunning(s: State, step: Step)
    requires Can(s, step) && Do(s, step).running && !s.flusher.Exited?
    ensures s.running && !Do(s, step).flusher.Exited?
  {
  }

  lemma {:induction false} FlushThreadRuns(s: State, steps: seq<Step>)
    requires RunFrom(s, steps).Reached? && RunFrom(s, steps).state.running && !s.flusher.Exited?
    ensures s.running && !RunFrom(s, steps).state.flusher.Exited?
    decreases |steps|
  {
    if steps != [] {
      StillRunning(Do(s, steps[0]), steps[1..]);
      NeverExitsWhileRunning(s, steps[0]);
      FlushThreadRuns(Do(s, steps[0]), steps[1..]);
    }
  }

  lemma {:induction false} StillRunning(s: State, steps: seq<Step>)
    requires RunFrom(s, steps).Reached? && RunFrom(s, steps).state.running
    ensures s.running
    decreases |steps|
  {
    if steps != [] { StillRunning(Do(s, steps[0]), steps[1..]); }
  }

  /** As long as `stop` has not been called the flush thread can, without any help of a client, bring everything
      emitted so far into the file. */
  lemma FlushThreadCatchesUp(steps: seq<Step>, s: State, finalFlush: bool) returns (more: seq<Step>)
    requires RunFrom(Initial(true, finalFlush), steps) == Reached(s) && s.running && s.isOpen && s.client.Idle?
    ensures forall i :: 0 <= i < |more| ==> OfFlushThread(more[i])
    ensures RunFrom(s, more).Reached? && multiset(RunFrom(s, more).state.data.file) == multiset(Emitted(steps))
  {
    RunInv(Initial(true, finalFlush), steps, true, finalFlush);
    FlushThreadRuns(Initial(true, finalFlush), steps);
    more := CatchUp(s, finalFlush);
    RunInv(s, more, true, finalFlush);
    RunArrives(Initial(true, finalFlush), steps);
    RunArrives(s, more);
    NothingEmitted(more);
    AllIsWritten(RunFrom(s, more).state, Arrived(s));
    assert [] + Emitted(steps) == Emitted(steps);
  }

  lemma {:induction false} NothingEmitted(steps: seq<Step>)
    requires forall i :: 0 <= i < |steps| ==> !steps[i].Emit?
    ensures Emitted(steps) == []
    decreases |steps|
  {
    if steps != [] { NothingEmitted(steps[1..]); }
  }

  lemma AllIsWritten(s: State, all: seq<Event>)
    requires Sound(s.data) && CaughtUp(s) && s.data.dropped == [] && Arrived(s) == all + []
    ensures multiset(s.data.file) == multiset(all)
  {
    assert s.data.pushed + [] == s.data.pushed && all + [] == all;
    forall e ensures Count(s.data.file, e) == Count(all, e) { assert ConservedFor(s.data, e); }
    SameCounts(s.data.file, all);
  }

  /** Once called, `stop` can always come to its end, whatever the threads were doing. */
  lemma StopCanFinish(s: State, isOpen: bool, finalFlush: bool) returns (more: seq<Step>)
    requires Reachable(s, isOpen, finalFlush) && !s.running
    ensures RunFrom(s, more).Reached? && Stopped(RunFrom(s, more).state)
    ensures forall i :: 0 <= i < |more| ==> !more[i].Emit?
  {
    ReachableInv(s, isOpen, finalFlush);
    more := Finish(s, isOpen, finalFlush);
  }
}
