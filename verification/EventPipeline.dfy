/** The event writers: bus callbacks, a flush thread and a client share a buffer and a file.

    Every statement that takes a lock, or that another thread could observe, is one step. The
    `file` of EventBatches is everything ever written, whichever rotated file it ends up in;
    rotation is part of the write that triggers it, and EventRotation takes it apart. The event-log
    writer and the session writer differ in `stop`: only the former drains the bus and flushes once
    more. */
module EventPipeline {
  import opened EventBatches

  datatype FlusherAt = Checking | Waiting | Took | WantsFile | Writing | Exited

  /** `last` marks the flush that `stop` performs. */
  datatype ClientAt = Idle | Holding(last: bool) | Syncing(last: bool) | Joining | Draining | LastTake | Closing

  datatype Holder = NoOne | By(who: Who)

  /** `drained` counts what had been pushed when `stop` found the bus empty, `asked` what had been
      pushed when the client last took the buffer. */
  datatype State = State(
    data: Data,
    bus: seq<Event>,
    isOpen: bool,
    running: bool,
    fileLock: Holder,
    flusher: FlusherAt,
    client: ClientAt,
    finalFlush: bool,
    drained: nat,
    asked: nat)

  datatype Step =
    | Emit(event: Event)
    | Deliver
    | FlusherCheck
    | FlusherTake
    | FlusherTest
    | FlusherLock
    | FlusherWrite
    | FlusherUnlock
    | SyncTake
    | SyncLock
    | SyncWrite
    | SyncUnlock
    | StopCall
    | StopJoin
    | StopDrain
    | StopTake
    | StopClose

  function Initial(isOpen: bool, finalFlush: bool): State {
    State(NOTHING, [], isOpen, true, NoOne, Checking, Idle, finalFlush, 0, 0)
  }

  predicate Can(s: State, step: Step) {
    match step
    case Emit(_) => true
    case Deliver => s.bus != []
    case FlusherCheck => s.flusher.Checking?
    case FlusherTake => s.flusher.Waiting?
    case FlusherTest => s.flusher.Took? && s.data.flusher.Holds?
    case FlusherLock => s.flusher.WantsFile? && s.data.flusher.Holds? && s.fileLock == NoOne
    case FlusherWrite => s.flusher.Writing? && MoreToWrite(s.data, Flusher)
    case FlusherUnlock => s.flusher.Writing? && AllWritten(s.data, Flusher)
    case SyncTake => s.client.Idle?
    case SyncLock => s.client.Holding? && s.data.client.Holds? && s.fileLock == NoOne
    case SyncWrite => s.client.Syncing? && MoreToWrite(s.data, Client)
    case SyncUnlock => s.client.Syncing? && AllWritten(s.data, Client)
    case StopCall => s.client.Idle?
    case StopJoin => s.client.Joining? && s.flusher.Exited?
    case StopDrain => s.client.Draining? && s.bus == []
    case StopTake => s.client.LastTake?
    case StopClose => s.client.Closing? && s.fileLock == NoOne
  }

  /** There is no file to write to, or nothing to write. */
  predicate NothingToDo(s: State, w: Who)
    requires HandOf(s.data, w).Holds?
  {
    !s.isOpen || BatchAt(s.data.takes, HandOf(s.data, w).batch) == []
  }

  function AfterFlush(last: bool): ClientAt {
    if last then Closing else Idle
  }

  function Do(s: State, step: Step): State
    requires Can(s, step)
  {
    match step
    case Emit(e) => s.(bus := s.bus + [e])
    case Deliver => s.(bus := s.bus[1..], data := Push(s.data, s.bus[0]))
    case FlusherCheck => s.(flusher := if s.running then Waiting else Exited)
    case FlusherTake =>
      // The wait ends on a notification or a timeout, whatever the buffer holds.
      s.(data := Take(s.data, Flusher), flusher := Took)
    case FlusherTest =>
      // The flush thread tests the file before it asks for the lock.
      if NothingToDo(s, Flusher) then s.(data := Drop(s.data, Flusher), flusher := Checking)
      else s.(flusher := WantsFile)
    case FlusherLock => s.(fileLock := By(Flusher), data := Begin(s.data, Flusher), flusher := Writing)
    case FlusherWrite => s.(data := WriteOne(s.data, Flusher))
    case FlusherUnlock => s.(fileLock := NoOne, data := Finish(s.data, Flusher), flusher := Checking)
    case SyncTake => s.(data := Take(s.data, Client), client := Holding(false), asked := |s.data.pushed|)
    case SyncLock =>
      // The client tests it with the lock held.
      if NothingToDo(s, Client) then s.(data := Drop(s.data, Client), client := AfterFlush(s.client.last))
      else s.(fileLock := By(Client), data := Begin(s.data, Client), client := Syncing(s.client.last))
    case SyncWrite => s.(data := WriteOne(s.data, Client))
    case SyncUnlock => s.(fileLock := NoOne, data := Finish(s.data, Client), client := AfterFlush(s.client.last))
    case StopCall => if s.running then s.(running := false, client := Joining) else s
    case StopJoin => s.(client := if s.finalFlush then Draining else Closing)
    case StopDrain => s.(client := LastTake, drained := |s.data.pushed|)
    case StopTake => s.(data := Take(s.data, Client), client := Holding(true), asked := |s.data.pushed|)
    case StopClose => s.(client := Idle, isOpen := false)
  }

  datatype Outcome = Blocked | Reached(state: State)

  /** Running one interleaving. */
  function RunFrom(s: State, steps: seq<Step>): Outcome
    decreases |steps|
  {
    if steps == [] then Reached(s)
    else if Can(s, steps[0]) then RunFrom(Do(s, steps[0]), steps[1..])
    else Blocked
  }

  ghost predicate Reachable(s: State, isOpen: bool, finalFlush: bool) {
    exists steps :: RunFrom(Initial(isOpen, finalFlush), steps) == Reached(s)
  }

  // ---- What every interleaving keeps ----

  /** Where a thread is says what it has in hand. */
  ghost predicate HandsMatch(s: State) {
    && (s.data.flusher.Holds? <==> s.flusher.Took? || s.flusher.WantsFile?)
    && (s.data.flusher.Writes? <==> s.flusher.Writing?)
    && (s.data.client.Holds? <==> s.client.Holding?)
    && (s.data.client.Writes? <==> s.client.Syncing?)
  }

  ghost predicate LocksHeld(s: State) {
    && (s.flusher.Writing? <==> s.fileLock == By(Flusher))
    && (s.client.Syncing? <==> s.fileLock == By(Client))
  }

  predicate Stopping(c: ClientAt) {
    c.Joining? || c.Draining? || c.LastTake? || c.Closing? || (c.Holding? && c.last) || (c.Syncing? && c.last)
  }

  /** `stop` has joined the flush thread and not yet closed the file. */
  predicate Joined(c: ClientAt) {
    Stopping(c) && !c.Joining?
  }

  /** `stop` has closed the file. */
  predicate Stopped(s: State) {
    !s.running && !Stopping(s.client)
  }

  ghost predicate StopOrder(s: State, isOpen: bool) {
    && (s.running ==> !Stopping(s.client))
    && (s.running || Stopping(s.client) ==> s.isOpen == isOpen)
    && (Joined(s.client) || Stopped(s) ==> s.flusher.Exited?)
    && (Stopped(s) ==> !s.isOpen)
    && (s.flusher.WantsFile? || s.flusher.Writing? || s.client.Syncing? ==> s.isOpen)
  }

  /** Only a closed file has batches with events dropped. */
  ghost predicate OpenDropsNothing(s: State) {
    s.isOpen ==> s.data.dropped == []
  }

  /** What was delivered before the drain is in a batch from the last take on. */
  ghost predicate DrainCovered(s: State) {
    && s.drained <= |s.data.pushed|
    && (s.running || s.client.Joining? || s.client.Draining? ==> s.drained == 0)
    && (!s.running && !s.client.Joining? && !s.client.Draining? && !s.client.LastTake?
        ==> s.drained <= |Flatten(s.data.takes)|)
  }

  /** The batches up to a hand's, laid end to end. */
  function TakenUpTo(d: Data, h: Hand): seq<Event> {
    if h.Empty? || h.batch >= |d.takes| then [] else Flatten(d.takes[..h.batch + 1])
  }

  /** Up to the client's batch the batches hold what had been pushed when the client took it. */
  ghost predicate AskedCovered(s: State) {
    !s.data.client.Empty? ==> s.asked <= |s.data.pushed| && TakenUpTo(s.data, s.data.client) == s.data.pushed[..s.asked]
  }

  /** While the file is open no batch is lost sight of, and only batches with events are begun. */
  ghost predicate BatchesPlaced(s: State) {
    && NoEmptyBatch(s.data) && (s.isOpen ==> AllPlaced(s.data))
    && (s.flusher.WantsFile? && s.data.flusher.Holds? ==> BatchAt(s.data.takes, s.data.flusher.batch) != [])
  }

  ghost predicate Inv(s: State, isOpen: bool, finalFlush: bool) {
    && Sound(s.data) && HandsMatch(s) && LocksHeld(s) && StopOrder(s, isOpen) && DrainCovered(s)
    && AskedCovered(s) && BatchesPlaced(s) && OpenDropsNothing(s) && s.finalFlush == finalFlush
  }

  lemma StepData(s: State, step: Step)
    requires Can(s, step) && Sound(s.data) && HandsMatch(s) && LocksHeld(s)
    ensures Sound(Do(s, step).data)
  {
    match step
    case Deliver => PushSound(s.data, s.bus[0]);
    case FlusherTake => TakeSound(s.data, Flusher);
    case FlusherTest => DropSound(s.data, Flusher);
    case FlusherLock => BeginSound(s.data, Flusher);
    case FlusherWrite => WriteSound(s.data, Flusher);
    case FlusherUnlock => FinishSound(s.data, Flusher);
    case SyncTake => TakeSound(s.data, Client);
    case SyncLock => DropSound(s.data, Client); BeginSound(s.data, Client);
    case SyncWrite => WriteSound(s.data, Client);
    case SyncUnlock => FinishSound(s.data, Client);
    case StopTake => TakeSound(s.data, Client);
    case _ =>
  }

  /** The steps that change where the client is, or the lock on its behalf. */
  predicate OfClient(step: Step) {
    || step.SyncTake? || step.SyncLock? || step.SyncWrite? || step.SyncUnlock?
    || step.StopCall? || step.StopJoin? || step.StopDrain? || step.StopTake? || step.StopClose?
  }

  lemma ClientControl(s: State, step: Step, isOpen: bool)
    requires Can(s, step) && OfClient(step) && HandsMatch(s) && LocksHeld(s) && StopOrder(s, isOpen)
    ensures HandsMatch(Do(s, step)) && LocksHeld(Do(s, step)) && StopOrder(Do(s, step), isOpen)
  {
  }

  lemma FlusherControl(s: State, step: Step, isOpen: bool)
    requires Can(s, step) && !OfClient(step) && HandsMatch(s) && LocksHeld(s) && StopOrder(s, isOpen)
    ensures HandsMatch(Do(s, step)) && LocksHeld(Do(s, step)) && StopOrder(Do(s, step), isOpen)
  {
  }

  lemma StepControl(s: State, step: Step, isOpen: bool)
    requires Can(s, step) && HandsMatch(s) && LocksHeld(s) && StopOrder(s, isOpen)
    ensures HandsMatch(Do(s, step)) && LocksHeld(Do(s, step)) && StopOrder(Do(s, step), isOpen)
  {
    if OfClient(step) { ClientControl(s, step, isOpen); } else { FlusherControl(s, step, isOpen); }
  }

  lemma StepDrain(s: State, step: Step, isOpen: bool)
    requires Can(s, step) && Sound(s.data) && HandsMatch(s) && StopOrder(s, isOpen) && DrainCovered(s)
    ensures DrainCovered(Do(s, step))
  {
    match step
    case FlusherTake => TakeSound(s.data, Flusher);
    case SyncTake => TakeSound(s.data, Client);
    case StopTake => TakeSound(s.data, Client);
    case _ =>
  }

  lemma TakeCoversAsked(d: Data)
    requires Sound(d) && d.client.Empty?
    ensures TakenUpTo(Take(d, Client), Take(d, Client).client) == d.pushed
  {
    TakeSound(d, Client);
    assert Take(d, Client).takes[..|d.takes| + 1] == Take(d, Client).takes;
  }

  lemma OtherTakeKeepsTaken(d: Data)
    requires Sound(d)
    ensures TakenUpTo(Take(d, Flusher), d.client) == TakenUpTo(d, d.client)
  {
    if !d.client.Empty? {
      assert Take(d, Flusher).takes[..d.client.batch + 1] == d.takes[..d.client.batch + 1];
    }
  }

  lemma StepAsked(s: State, step: Step)
    requires Can(s, step) && Sound(s.data) && HandsMatch(s) && AskedCovered(s)
    ensures AskedCovered(Do(s, step))
  {
    match step
    case FlusherTake => OtherTakeKeepsTaken(s.data);
    case SyncTake => TakeCoversAsked(s.data);
    case StopTake => TakeCoversAsked(s.data);
    case Deliver => PushKeepsPrefix(s.data.pushed, s.bus[0], s.asked);
    case _ =>
  }

  lemma PushKeepsPrefix(pushed: seq<Event>, e: Event, n: nat)
    ensures n <= |pushed| ==> (pushed + [e])[..n] == pushed[..n]
  {
  }

  lemma FlusherPlaces(s: State, step: Step)
    requires Can(s, step) && !OfClient(step) && Sound(s.data) && HandsMatch(s) && BatchesPlaced(s)
    ensures BatchesPlaced(Do(s, step))
  {
    match step
    case FlusherTake => if s.isOpen { TakeKeepsPlaced(s.data, Flusher); }
    case FlusherTest => if s.isOpen && NothingToDo(s, Flusher) { DropKeepsPlaced(s.data, Flusher); }
    case FlusherLock => if s.isOpen { BeginKeepsPlaced(s.data, Flusher); }
    case FlusherWrite => if s.isOpen { WritingKeepsPlaced(s.data, Do(s, step).data, Flusher); }
    case FlusherUnlock => if s.isOpen { WritingKeepsPlaced(s.data, Do(s, step).data, Flusher); }
    case Deliver => if s.isOpen { PushKeepsPlaced(s.data, Do(s, step).data); }
    case _ =>
  }

  lemma PushKeepsPlaced(d: Data, d': Data)
    requires AllPlaced(d) && d'.takes == d.takes && d'.order == d.order
    requires d'.flusher == d.flusher && d'.client == d.client
    ensures AllPlaced(d')
  {
    forall b: nat ensures Placed(d', b) { assert Placed(d, b); }
  }

  lemma ClientPlaces(s: State, step: Step)
    requires Can(s, step) && OfClient(step) && Sound(s.data) && HandsMatch(s) && BatchesPlaced(s)
    ensures BatchesPlaced(Do(s, step))
  {
    match step
    case SyncTake => if s.isOpen { TakeKeepsPlaced(s.data, Client); }
    case StopTake => if s.isOpen { TakeKeepsPlaced(s.data, Client); }
    case SyncLock =>
      if s.isOpen {
        if NothingToDo(s, Client) { DropKeepsPlaced(s.data, Client); } else { BeginKeepsPlaced(s.data, Client); }
      }
    case SyncWrite => if s.isOpen { WritingKeepsPlaced(s.data, Do(s, step).data, Client); }
    case SyncUnlock => if s.isOpen { WritingKeepsPlaced(s.data, Do(s, step).data, Client); }
    case _ =>
  }

  lemma StepPlaces(s: State, step: Step)
    requires Can(s, step) && Sound(s.data) && HandsMatch(s) && BatchesPlaced(s)
    ensures BatchesPlaced(Do(s, step))
  {
    if OfClient(step) { ClientPlaces(s, step); } else { FlusherPlaces(s, step); }
  }

  lemma StepDropsNothing(s: State, step: Step)
    requires Can(s, step) && OpenDropsNothing(s)
    ensures OpenDropsNothing(Do(s, step))
  {
  }

  lemma StepInv(s: State, step: Step, isOpen: bool, finalFlush: bool)
    requires Inv(s, isOpen, finalFlush) && Can(s, step)
    ensures Inv(Do(s, step), isOpen, finalFlush)
  {
    StepData(s, step);
    StepControl(s, step, isOpen);
    StepDrain(s, step, isOpen);
    StepAsked(s, step);
    StepPlaces(s, step);
    StepDropsNothing(s, step);
  }

  lemma {:induction false} RunInv(s: State, steps: seq<Step>, isOpen: bool, finalFlush: bool)
    requires Inv(s, isOpen, finalFlush) && RunFrom(s, steps).Reached?
    ensures Inv(RunFrom(s, steps).state, isOpen, finalFlush)
    decreases |steps|
  {
    if steps != [] {
      StepInv(s, steps[0], isOpen, finalFlush);
      RunInv(Do(s, steps[0]), steps[1..], isOpen, finalFlush);
    }
  }

  lemma ReachableInv(s: State, isOpen: bool, finalFlush: bool)
    requires Reachable(s, isOpen, finalFlush)
    ensures Inv(s, isOpen, finalFlush)
  {
    var steps :| RunFrom(Initial(isOpen, finalFlush), steps) == Reached(s);
    RunInv(Initial(isOpen, finalFlush), steps, isOpen, finalFlush);
  }

  /** Nobody has called `flush_sync`: what the client has in hand it took in `stop`. */
  predicate OnlyStopTakes(c: ClientAt) {
    (c.Holding? || c.Syncing?) ==> c.last
  }

  lemma OnlyStopGoesOn(s: State, step: Step)
    requires Can(s, step) && !step.SyncTake? && OnlyStopTakes(s.client)
    ensures OnlyStopTakes(Do(s, step).client)
  {
  }

  // ---- From the bus to the file ----

  /** What a run emits, in order. */
  function Emitted(steps: seq<Step>): seq<Event> {
    if steps == [] then [] else (if steps[0].Emit? then [steps[0].event] else []) + Emitted(steps[1..])
  }

  /** What has been delivered, and then what waits on the bus. */
  function Arrived(s: State): seq<Event> {
    s.data.pushed + s.bus
  }

  /** The bus keeps events in order and loses none: a step adds to its end what it emits. */
  lemma StepArrives(s: State, step: Step)
    requires Can(s, step)
    ensures Arrived(Do(s, step)) == Arrived(s) + (if step.Emit? then [step.event] else [])
  {
    match step
    case Emit(e) => assert s.data.pushed + (s.bus + [e]) == s.data.pushed + s.bus + [e];
    case Deliver => assert s.data.pushed + [s.bus[0]] + s.bus[1..] == s.data.pushed + s.bus;
    case _ =>
  }

  lemma {:induction false} RunArrives(s: State, steps: seq<Step>)
    requires RunFrom(s, steps).Reached?
    ensures Arrived(RunFrom(s, steps).state) == Arrived(s) + Emitted(steps)
    decreases |steps|
  {
    if steps != [] {
      var own := if steps[0].Emit? then [steps[0].event] else [];
      StepArrives(s, steps[0]);
      RunArrives(Do(s, steps[0]), steps[1..]);
      assert Arrived(s) + own + Emitted(steps[1..]) == Arrived(s) + (own + Emitted(steps[1..]));
    }
  }

  lemma HolderCases(h: Holder)
    ensures h == NoOne || h == By(Flusher) || h == By(Client)
  {
    if h.By? && h.who.Client? { assert h == By(Client); }
  }

  // ---- Results ----

  /** In every interleaving, as long as the file is open, each event pushed is written, in a
      thread's hand, or in the buffer, as often as it was pushed. */
  lemma NothingLostWhileOpen(s: State, finalFlush: bool, e: Event)
    requires Reachable(s, true, finalFlush) && s.isOpen
    ensures Count(s.data.pushed, e) == Count(s.data.file, e) + InHand(s.data, e) + Count(s.data.buffer, e)
  {
    ReachableInv(s, true, finalFlush);
    assert ConservedFor(s.data, e);
  }

  /** Batches are cut from the pushed events in push order, and each is written whole, without
      another batch's events in between and at most once. */
  lemma BatchesAreContiguous(s: State, isOpen: bool, finalFlush: bool)
    requires Reachable(s, isOpen, finalFlush)
    ensures Flatten(s.data.takes) + s.data.buffer == s.data.pushed
    ensures forall i, j :: 0 <= i < j < |s.data.order| ==> s.data.order[i] != s.data.order[j]
    ensures s.fileLock == NoOne ==> s.data.file == Batches(s.data.takes, s.data.order)
    ensures s.fileLock.By? ==>
              (s.data.order != [] &&
               var batch, at := BatchAt(s.data.takes, s.data.order[|s.data.order| - 1]), HandOf(s.data, s.fileLock.who);
               at.Writes? && at.at <= |batch| &&
               s.data.file == Batches(s.data.takes, Before(s.data)) + batch[..at.at])
  {
    ReachableInv(s, isOpen, finalFlush);
    HolderCases(s.fileLock);
  }

  /** When the event-log writer's `stop` closes the file, everything taken from the buffer has been
      written exactly once, and that covers every event delivered before the bus was drained. */
  lemma StopWritesEverything(s: State)
    requires Reachable(s, true, true) && Can(s, StopClose)
    ensures var d := Do(s, StopClose).data;
            && d.pushed == Flatten(d.takes) + d.buffer
            && multiset(d.file) == multiset(Flatten(d.takes))
            && s.drained <= |Flatten(d.takes)| && d.pushed[..s.drained] == Flatten(d.takes)[..s.drained]
  {
    ReachableInv(s, true, true);
    forall e ensures Count(s.data.file, e) == Count(Flatten(s.data.takes), e) {
      TakenIsWrittenOrHeld(s.data, e);
    }
    SameCounts(s.data.file, Flatten(s.data.takes));
  }

  lemma {:induction false} RunSplits(s: State, before: seq<Step>, after: seq<Step>)
    requires RunFrom(s, before + after).Reached?
    ensures RunFrom(s, before).Reached? && RunFrom(RunFrom(s, before).state, after) == RunFrom(s, before + after)
    decreases |before|
  {
    if before == [] {
      assert before + after == after;
    } else {
      assert (before + after)[0] == before[0] && (before + after)[1..] == before[1..] + after;
      RunSplits(Do(s, before[0]), before[1..], after);
    }
  }

  /** `stop` has found the bus empty. */
  predicate Drained(s: State) {
    !s.running && !s.client.Joining? && !s.client.Draining?
  }

  lemma {:induction false} DrainedStays(s: State, steps: seq<Step>)
    requires Drained(s) && RunFrom(s, steps).Reached?
    ensures Drained(RunFrom(s, steps).state) && RunFrom(s, steps).state.drained == s.drained
    decreases |steps|
  {
    if steps != [] { DrainedStays(Do(s, steps[0]), steps[1..]); }
  }

  /** When `stop` finds the bus empty, everything emitted so far has been delivered. */
  lemma DrainWaitsForTheBus(steps: seq<Step>, s: State, isOpen: bool, finalFlush: bool)
    requires RunFrom(Initial(isOpen, finalFlush), steps) == Reached(s) && Can(s, StopDrain)
    ensures s.data.pushed == Emitted(steps) && Do(s, StopDrain).drained == |Emitted(steps)|
  {
    RunArrives(Initial(isOpen, finalFlush), steps);
    assert s.data.pushed + [] == s.data.pushed && [] + Emitted(steps) == Emitted(steps);
  }

  /** In every run of the event-log writer whose `stop` closes the file, everything emitted before `stop` found
      the bus empty is in the file, in the batches it holds, and so written exactly as often as it was emitted;
      and the file holds nothing that was not emitted. */
  lemma StopWritesAllEmitted(before: seq<Step>, after: seq<Step>, s: State)
    requires RunFrom(Initial(true, true), before + [StopDrain] + after) == Reached(s) && Can(s, StopClose)
    ensures var d := Do(s, StopClose).data;
            && Emitted(before) <= Flatten(d.takes) && multiset(d.file) == multiset(Flatten(d.takes))
            && Flatten(d.takes) <= Emitted(before + [StopDrain] + after)
  {
    DrainSeesEmitted(before, after, s);
    StopWritesEverything(s);
    StopCoversEmitted(before, after, s);
  }

  lemma DrainSeesEmitted(before: seq<Step>, after: seq<Step>, s: State)
    requires RunFrom(Initial(true, true), before + [StopDrain] + after) == Reached(s)
    ensures s.drained == |Emitted(before)|
  {
    var start := Initial(true, true);
    RunSplits(start, before + [StopDrain], after);
    RunSplits(start, before, [StopDrain]);
    var found := RunFrom(start, before).state;
    assert RunFrom(found, [StopDrain]).Reached? && [StopDrain][0] == StopDrain && [StopDrain][1..] == [];
    RunInv(start, before, true, true);
    DrainWaitsForTheBus(before, found, true, true);
    DrainedStays(Do(found, StopDrain), after);
  }

  lemma StopCoversEmitted(before: seq<Step>, after: seq<Step>, s: State)
    requires RunFrom(Initial(true, true), before + [StopDrain] + after) == Reached(s) && Can(s, StopClose)
    requires s.drained == |Emitted(before)| && s.drained <= |Flatten(s.data.takes)|
    requires s.data.pushed == Flatten(s.data.takes) + s.data.buffer
    ensures Emitted(before) <= Flatten(s.data.takes) <= Emitted(before + [StopDrain] + after)
  {
    var steps := before + [StopDrain] + after;
    RunArrives(Initial(true, true), steps);
    assert [] + Emitted(steps) == Emitted(steps) == s.data.pushed + s.bus;
    assert steps == before + ([StopDrain] + after);
    EmittedSplits(before, [StopDrain] + after);
    assert Flatten(s.data.takes) <= s.data.pushed <= Emitted(steps);
    PrefixesNest(Emitted(before), Flatten(s.data.takes), Emitted(steps));
  }

  lemma PrefixesNest(a: seq<Event>, b: seq<Event>, whole: seq<Event>)
    requires a <= whole && b <= whole && |a| <= |b|
    ensures a <= b
  {
  }

  lemma {:induction false} EmittedSplits(a: seq<Step>, b: seq<Step>)
    ensures Emitted(a + b) == Emitted(a) + Emitted(b)
    decreases |a|
  {
    if a == [] {
      assert a + b == b;
    } else {
      assert (a + b)[0] == a[0] && (a + b)[1..] == a[1..] + b;
      EmittedSplits(a[1..], b);
    }
  }

  lemma NotYetDrained(s: State, step: Step)
    requires Can(s, step) && s.finalFlush && !Drained(s) && !step.StopDrain?
    ensures !Drained(Do(s, step)) && Do(s, step).finalFlush
  {
  }

  lemma {:induction false} DrainIsThere(s: State, steps: seq<Step>) returns (at: nat)
    requires s.finalFlush && !Drained(s) && RunFrom(s, steps).Reached? && Drained(RunFrom(s, steps).state)
    ensures at < |steps| && steps[at] == StopDrain
    decreases |steps|
  {
    if steps[0] == StopDrain { return 0; }
    NotYetDrained(s, steps[0]);
    var later := DrainIsThere(Do(s, steps[0]), steps[1..]);
    at := later + 1;
  }

  /** The event-log writer's `stop` never closes the file without having drained the bus, and so always with all
      of that in the file. */
  lemma StopHasDrained(steps: seq<Step>, s: State) returns (before: seq<Step>, after: seq<Step>)
    requires RunFrom(Initial(true, true), steps) == Reached(s) && Can(s, StopClose)
    ensures steps == before + [StopDrain] + after
    ensures var d := Do(s, StopClose).data;
            && Emitted(before) <= Flatten(d.takes) && multiset(d.file) == multiset(Flatten(d.takes))
            && Flatten(d.takes) <= Emitted(steps)
  {
    RunInv(Initial(true, true), steps, true, true);
    var at := DrainIsThere(Initial(true, true), steps);
    before, after := steps[..at], steps[at + 1..];
    assert steps == before + [StopDrain] + after;
    StopWritesAllEmitted(before, after, s);
  }

  /** The session writer's never drains it. */
  lemma {:induction false} SessionStopNeverDrains(s: State, steps: seq<Step>)
    requires !s.finalFlush && !s.client.Draining? && RunFrom(s, steps).Reached?
    ensures StopDrain !in steps
    decreases |steps|
  {
    if steps != [] { SessionStopNeverDrains(Do(s, steps[0]), steps[1..]); }
  }

  /** `stop` finds the file lock free when it closes the file, so closing without it, as the
      session writer does, races with nobody. */
  lemma StopFindsTheLockFree(s: State, isOpen: bool, finalFlush: bool)
    requires Reachable(s, isOpen, finalFlush) && s.client.Closing?
    ensures Can(s, StopClose)
  {
    ReachableInv(s, isOpen, finalFlush);
    HolderCases(s.fileLock);
  }

  /** After `stop` the file never changes again. */
  lemma ClosedFileIsFinal(s: State, step: Step, isOpen: bool, finalFlush: bool)
    requires Reachable(s, isOpen, finalFlush) && Stopped(s) && Can(s, step)
    ensures Stopped(Do(s, step)) && Do(s, step).data.file == s.data.file
  {
    ReachableInv(s, isOpen, finalFlush);
  }

  /** Begun, or with nothing to write. */
  predicate Begun(d: Data, b: nat) {
    BatchAt(d.takes, b) == [] || b in d.order
  }

  /** The flush thread has one of the first `n` batches in hand, with events in it. */
  predicate FlusherHoldsOneOf(d: Data, n: nat) {
    d.flusher.Holds? && d.flusher.batch < n && BatchAt(d.takes, d.flusher.batch) != []
  }

  /** What `flush_sync` guarantees on return. What had been pushed when it took the buffer is its own
      batch and the ones before it; all of these are written, whole, unless the flush thread still has
      one of them in hand, which is then the only one not written. */
  lemma SyncLeavesOnlyTheFlushersBatch(s: State, finalFlush: bool, step: Step)
    requires Reachable(s, true, finalFlush) && s.isOpen && Can(s, step)
    requires step.SyncLock? || step.SyncUnlock?
    requires Do(s, step).client.Idle?
    ensures var s', n := Do(s, step), s.data.client.batch + 1;
            && s.asked <= |s'.data.pushed| && n <= |s'.data.takes|
            && s'.data.pushed[..s.asked] == Flatten(s'.data.takes[..n])
            && s'.fileLock == NoOne && s'.data.file == Batches(s'.data.takes, s'.data.order)
            && (forall b: nat :: b < n ==> Begun(s'.data, b) || s'.data.flusher == Holds(b))
            && ((forall b: nat :: b < n ==> Begun(s'.data, b)) <==> !FlusherHoldsOneOf(s'.data, n))
  {
    StepIsReachable(s, step, true, finalFlush);
    ReachableInv(s, true, finalFlush);
    ReachableInv(Do(s, step), true, finalFlush);
    var d, n := Do(s, step).data, s.data.client.batch + 1;
    forall b: nat ensures Begun(d, b) || d.flusher == Holds(b) { assert Placed(d, b); }
    if FlusherHoldsOneOf(d, n) { assert !Begun(d, d.flusher.batch); }
  }

  /** Counted event by event: nothing pushed before the call is anywhere but in the file or in the
      flush thread's hand. */
  lemma SyncCoversWhatWasPushed(s: State, finalFlush: bool, step: Step, e: Event)
    requires Reachable(s, true, finalFlush) && s.isOpen && Can(s, step)
    requires step.SyncLock? || step.SyncUnlock?
    requires Do(s, step).client.Idle?
    ensures var d := Do(s, step).data;
            s.asked <= |d.pushed| &&
            Count(d.pushed[..s.asked], e) <= Count(d.file, e) + Count(Rest(d.takes, d.flusher), e)
  {
    SyncLeavesOnlyTheFlushersBatch(s, finalFlush, step);
    StepIsReachable(s, step, true, finalFlush);
    ReachableInv(Do(s, step), true, finalFlush);
    var d := Do(s, step).data;
    FirstBatchesCount(d, s.data.client.batch + 1, e);
    assert d.client == Empty;
  }

  lemma FirstBatchesCount(d: Data, n: nat, e: Event)
    requires Sound(d) && d.dropped == [] && n <= |d.takes|
    ensures Count(Flatten(d.takes[..n]), e) <= Count(d.file, e) + InHand(d, e)
  {
    TakenIsWrittenOrHeld(d, e);
    FlattenPrefix(d.takes, n);
    CountPrefix(Flatten(d.takes[..n]), Flatten(d.takes), e);
  }

  /** The session writer's `stop` neither drains nor flushes: what it leaves unwritten is exactly
      the buffer. */
  lemma SessionStopLeavesTheBuffer(s: State)
    requires Reachable(s, true, false) && Can(s, StopClose)
    ensures multiset(s.data.pushed) == multiset(s.data.file + s.data.buffer)
  {
    ReachableInv(s, true, false);
    forall e ensures Count(s.data.pushed, e) == Count(s.data.file + s.data.buffer, e) {
      assert ConservedFor(s.data, e);
      CountAppend(s.data.file, s.data.buffer, e);
    }
    SameCounts(s.data.pushed, s.data.file + s.data.buffer);
  }

  /** Emitted events it leaves unwritten are in the buffer or still on the bus. */
  lemma SessionStopLeavesTheBus(steps: seq<Step>, s: State)
    requires RunFrom(Initial(true, false), steps) == Reached(s) && Can(s, StopClose)
    ensures multiset(Emitted(steps)) == multiset(s.data.file + s.data.buffer) + multiset(s.bus)
  {
    RunArrives(Initial(true, false), steps);
    assert [] + Emitted(steps) == Emitted(steps) == s.data.pushed + s.bus;
    SessionStopLeavesTheBuffer(s);
  }

  // ---- Runs that show where the guarantees end ----

  lemma {:induction false} RunSnoc(s: State, steps: seq<Step>, step: Step)
    requires RunFrom(s, steps).Reached? && Can(RunFrom(s, steps).state, step)
    ensures RunFrom(s, steps + [step]) == Reached(Do(RunFrom(s, steps).state, step))
    decreases |steps|
  {
    if steps == [] {
      assert steps + [step] == [step] && [step][1..] == [];
      assert RunFrom(Do(s, step), []) == Reached(Do(s, step));
    } else {
      assert (steps + [step])[1..] == steps[1..] + [step];
      RunSnoc(Do(s, steps[0]), steps[1..], step);
    }
  }

  lemma StepIsReachable(s: State, step: Step, isOpen: bool, finalFlush: bool)
    requires Reachable(s, isOpen, finalFlush) && Can(s, step)
    ensures Reachable(Do(s, step), isOpen, finalFlush)
  {
    var steps :| RunFrom(Initial(isOpen, finalFlush), steps) == Reached(s);
    RunSnoc(Initial(isOpen, finalFlush), steps, step);
  }

  lemma StartIsReachable(isOpen: bool, finalFlush: bool)
    ensures Reachable(Initial(isOpen, finalFlush), isOpen, finalFlush)
  {
    assert RunFrom(Initial(isOpen, finalFlush), []) == Reached(Initial(isOpen, finalFlush));
  }

  lemma Follow(s: State, step: Step, isOpen: bool, finalFlush: bool) returns (s': State)
    requires Reachable(s, isOpen, finalFlush) && Can(s, step)
    ensures s' == Do(s, step) && Reachable(s', isOpen, finalFlush)
  {
    StepIsReachable(s, step, isOpen, finalFlush);
    s' := Do(s, step);
  }

  lemma OneDelivered(e: Event, finalFlush: bool) returns (s: State)
    ensures Reachable(s, true, finalFlush)
    ensures s == State(Data([e], [e], [], [], [], [], Empty, Empty), [], true, true, NoOne, Checking, Idle,
                       finalFlush, 0, 0)
  {
    s := Initial(true, finalFlush);
    StartIsReachable(true, finalFlush);
    s := Follow(s, Emit(e), true, finalFlush);
    s := Follow(s, Deliver, true, finalFlush);
    assert s.data.pushed == [e] && s.data.buffer == [e] && s.bus == [];
  }

  /** The flush thread has taken the one event pushed. */
  lemma FlusherTakesOne(e: Event) returns (s: State)
    ensures Reachable(s, true, true)
    ensures s == State(Data([e], [], [[e]], [], [], [], Holds(0), Empty), [], true, true, NoOne, Took, Idle, true, 0, 0)
  {
    s := OneDelivered(e, true);
    s := Follow(s, FlusherCheck, true, true);
    s := Follow(s, FlusherTake, true, true);
    assert s.data.takes == [[e]];
  }

  /** `flush_sync` does not wait for a batch the flush thread has taken but not yet locked the file
      for: the call returns and the event is not in the file. */
  lemma SyncMayReturnEarly(e: Event) returns (s: State)
    ensures Reachable(s, true, true) && s.isOpen && s.running && Can(s, SyncLock)
    ensures var s' := Do(s, SyncLock);
            s'.client.Idle? && s'.data.pushed == [e] && s'.data.file == []
  {
    s := FlusherTakesOne(e);
    s := Follow(s, SyncTake, true, true);
  }

  /** The file need not be in push order: a later batch can overtake one the flush thread holds. */
  lemma BatchesCanOvertake(e: Event, f: Event) returns (s: State)
    ensures Reachable(s, true, true) && s.data.pushed == [e, f] && s.data.file == [f, e]
  {
    s := LaterBatchWritten(e, f);
    s := Follow(s, FlusherTest, true, true);
    s := Follow(s, FlusherLock, true, true);
    s := Follow(s, FlusherWrite, true, true);
  }

  lemma LaterBatchTaken(e: Event, f: Event) returns (s: State)
    ensures Reachable(s, true, true)
    ensures s == State(Data([e, f], [], [[e], [f]], [], [], [], Holds(0), Holds(1)), [], true, true, NoOne, Took,
                       Holding(false), true, 0, 2)
  {
    s := FlusherTakesOne(e);
    s := Follow(s, Emit(f), true, true);
    s := Follow(s, Deliver, true, true);
    assert s.data.buffer == [f] && s.data.pushed == [e, f] && s.bus == [];
    s := Follow(s, SyncTake, true, true);
    assert s.data.takes == [[e], [f]];
  }

  lemma LaterBatchWritten(e: Event, f: Event) returns (s: State)
    ensures Reachable(s, true, true)
    ensures s == State(Data([e, f], [], [[e], [f]], [1], [f], [], Holds(0), Empty), [], true, true, NoOne, Took,
                       Idle, true, 0, 2)
  {
    s := LaterBatchTaken(e, f);
    s := Follow(s, SyncLock, true, true);
    assert s.data.order == [1];
    s := Follow(s, SyncWrite, true, true);
    assert s.data.file == [f];
    s := Follow(s, SyncUnlock, true, true);
  }

  /** What the session writer leaves in the buffer need not be empty: an event delivered before
      `stop` was called can be lost. */
  lemma SessionStopCanLose(e: Event) returns (s: State)
    ensures Reachable(s, true, false) && Stopped(s) && s.data.pushed == [e] && s.data.file == []
  {
    s := OneDelivered(e, false);
    s := Follow(s, StopCall, true, false);
    s := Follow(s, FlusherCheck, true, false);
    s := Follow(s, StopJoin, true, false);
    s := Follow(s, StopClose, true, false);
  }
}
