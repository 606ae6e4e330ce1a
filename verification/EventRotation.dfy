/** The event writers with rotation in two steps: the thread that writes closes the file and opens it again, and
    in between the flush thread's test of the file, made without the lock, finds it closed. */
module EventRotation {
  import opened EventBatches
  import opened EventPipeline

  datatype Moment = Moment(state: State, rotating: bool)

  datatype Action = Plain(step: Step) | BeginRotation | EndRotation

  function Start(isOpen: bool, finalFlush: bool): Moment {
    Moment(Initial(isOpen, finalFlush), false)
  }

  /** The steps of a thread that has the file lock. */
  predicate OfHolder(step: Step) {
    step.FlusherWrite? || step.FlusherUnlock? || step.SyncWrite? || step.SyncUnlock?
  }

  /** A line was written under the lock: now the file may be found too large. */
  predicate LineWritten(s: State) {
    s.fileLock.By? && HandOf(s.data, s.fileLock.who).Writes? && HandOf(s.data, s.fileLock.who).at > 0
  }

  predicate CanAct(m: Moment, a: Action) {
    match a
    case Plain(step) => Can(m.state, step) && (m.rotating ==> !OfHolder(step))
    case BeginRotation => !m.rotating && LineWritten(m.state)
    case EndRotation => m.rotating
  }

  function Act(m: Moment, a: Action): Moment
    requires CanAct(m, a)
  {
    match a
    case Plain(step) =>
      if step.FlusherTest? && m.rotating
      then m.(state := m.state.(data := Drop(m.state.data, Flusher), flusher := Checking))
      else m.(state := Do(m.state, step))
    case BeginRotation => m.(rotating := true)
    case EndRotation => m.(rotating := false)
  }

  datatype Ending = Stuck | At(moment: Moment)

  function RunOf(m: Moment, actions: seq<Action>): Ending
    decreases |actions|
  {
    if actions == [] then At(m)
    else if CanAct(m, actions[0]) then RunOf(Act(m, actions[0]), actions[1..])
    else Stuck
  }

  // ---- What is lost ----

  /** The flush thread tests the file during a rotation, with events in hand. */
  predicate Loses(m: Moment, a: Action) {
    && a == Plain(FlusherTest) && CanAct(m, a) && m.rotating
    && BatchAt(m.state.data.takes, m.state.data.flusher.batch) != []
  }

  function LostBy(m: Moment, a: Action): seq<Event> {
    if Loses(m, a) then BatchAt(m.state.data.takes, m.state.data.flusher.batch) else []
  }

  /** The batches lost in a run, in order. */
  function Lost(m: Moment, actions: seq<Action>): seq<Event>
    decreases |actions|
  {
    if actions == [] || !CanAct(m, actions[0]) then []
    else LostBy(m, actions[0]) + Lost(Act(m, actions[0]), actions[1..])
  }

  predicate NeverLoses(m: Moment, actions: seq<Action>)
    decreases |actions|
  {
    actions != [] && CanAct(m, actions[0]) ==>
      !Loses(m, actions[0]) && NeverLoses(Act(m, actions[0]), actions[1..])
  }

  lemma {:induction false} NothingLostIff(m: Moment, actions: seq<Action>)
    ensures Lost(m, actions) == [] <==> NeverLoses(m, actions)
    decreases |actions|
  {
    if actions != [] && CanAct(m, actions[0]) { NothingLostIff(Act(m, actions[0]), actions[1..]); }
  }

  // ---- Without a loss, rotation cannot be seen ----

  /** A run with its rotations left out. */
  function Steps(actions: seq<Action>): seq<Step> {
    if actions == [] then []
    else (if actions[0].Plain? then [actions[0].step] else []) + Steps(actions[1..])
  }

  lemma ActIsDo(m: Moment, step: Step)
    requires CanAct(m, Plain(step)) && !Loses(m, Plain(step))
    ensures Act(m, Plain(step)) == m.(state := Do(m.state, step))
  {
  }

  lemma {:induction false} RotationIsInvisible(m: Moment, actions: seq<Action>)
    requires RunOf(m, actions).At? && NeverLoses(m, actions)
    ensures RunFrom(m.state, Steps(actions)) == Reached(RunOf(m, actions).moment.state)
    decreases |actions|
  {
    if actions != [] {
      RotationIsInvisible(Act(m, actions[0]), actions[1..]);
      if actions[0].Plain? {
        ActIsDo(m, actions[0].step);
        assert Steps(actions)[0] == actions[0].step && Steps(actions)[1..] == Steps(actions[1..]);
      } else {
        assert Steps(actions) == Steps(actions[1..]);
      }
    }
  }

  // ---- What every run keeps ----

  ghost predicate Kept(m: Moment, isOpen: bool, finalFlush: bool) {
    && Sound(m.state.data) && HandsMatch(m.state) && LocksHeld(m.state) && StopOrder(m.state, isOpen)
    && m.state.finalFlush == finalFlush && (m.rotating ==> m.state.fileLock.By?)
  }

  lemma ActKeeps(m: Moment, a: Action, isOpen: bool, finalFlush: bool)
    requires Kept(m, isOpen, finalFlush) && CanAct(m, a)
    ensures Kept(Act(m, a), isOpen, finalFlush)
  {
    if a.Plain? {
      if a.step.FlusherTest? && m.rotating {
        TestKeeps(m.state, Act(m, a).state, isOpen);
      } else {
        StepData(m.state, a.step);
        StepControl(m.state, a.step, isOpen);
        LockStays(m, a.step);
      }
    }
  }

  lemma TestKeeps(s: State, s': State, isOpen: bool)
    requires Sound(s.data) && HandsMatch(s) && LocksHeld(s) && StopOrder(s, isOpen) && s.data.flusher.Holds?
    requires s.flusher.Took? && s' == s.(data := Drop(s.data, Flusher), flusher := Checking)
    ensures Sound(s'.data) && HandsMatch(s') && LocksHeld(s') && StopOrder(s', isOpen)
  {
    DropSound(s.data, Flusher);
  }

  lemma LockStays(m: Moment, step: Step)
    requires CanAct(m, Plain(step)) && HandsMatch(m.state) && LocksHeld(m.state)
    requires m.rotating ==> m.state.fileLock.By?
    ensures m.rotating ==> Do(m.state, step).fileLock.By?
  {
  }

  lemma {:induction false} RunKeeps(m: Moment, actions: seq<Action>, isOpen: bool, finalFlush: bool)
    requires Kept(m, isOpen, finalFlush) && RunOf(m, actions).At?
    ensures Kept(RunOf(m, actions).moment, isOpen, finalFlush)
    decreases |actions|
  {
    if actions != [] {
      ActKeeps(m, actions[0], isOpen, finalFlush);
      RunKeeps(Act(m, actions[0]), actions[1..], isOpen, finalFlush);
    }
  }

  lemma DoDrops(s: State, step: Step)
    requires Can(s, step) && Do(s, step).isOpen
    ensures s.isOpen && Do(s, step).data.dropped == s.data.dropped
  {
  }

  /** While the file is not closed for good, an action drops what it loses and nothing else. */
  lemma ActDrops(m: Moment, a: Action)
    requires CanAct(m, a) && Act(m, a).state.isOpen
    ensures m.state.isOpen && Act(m, a).state.data.dropped == m.state.data.dropped + LostBy(m, a)
  {
    if a.Plain? && !(a.step.FlusherTest? && m.rotating) {
      DoDrops(m.state, a.step);
      assert LostBy(m, a) == [];
    }
  }

  lemma {:induction false} RunDrops(m: Moment, actions: seq<Action>)
    requires RunOf(m, actions).At? && RunOf(m, actions).moment.state.isOpen
    ensures m.state.isOpen
    ensures RunOf(m, actions).moment.state.data.dropped == m.state.data.dropped + Lost(m, actions)
    decreases |actions|
  {
    if actions != [] {
      RunDrops(Act(m, actions[0]), actions[1..]);
      ActDrops(m, actions[0]);
    }
  }

  // ---- Results ----

  /** In every interleaving, as long as `stop` has not closed the file, each event pushed is written, in a
      thread's hand, in the buffer, or in a batch that was tested during a rotation. */
  lemma OnlyTestedBatchesAreLost(actions: seq<Action>, m: Moment, finalFlush: bool, e: Event)
    requires RunOf(Start(true, finalFlush), actions) == At(m) && m.state.isOpen
    ensures var d := m.state.data;
            Count(d.pushed, e) ==
            Count(d.file, e) + InHand(d, e) + Count(d.buffer, e) + Count(Lost(Start(true, finalFlush), actions), e)
  {
    RunKeeps(Start(true, finalFlush), actions, true, finalFlush);
    RunDrops(Start(true, finalFlush), actions);
    assert ConservedFor(m.state.data, e);
  }

  /** Nothing is lost exactly if the flush thread never tests the file during a rotation with events in hand;
      and then the run is one in which rotation is part of the write, so that all that is said of those holds. */
  lemma NothingLostIffNeverTested(actions: seq<Action>, m: Moment, finalFlush: bool)
    requires RunOf(Start(true, finalFlush), actions) == At(m) && m.state.isOpen
    ensures m.state.data.dropped == [] <==> NeverLoses(Start(true, finalFlush), actions)
    ensures NeverLoses(Start(true, finalFlush), actions) ==>
              RunFrom(Initial(true, finalFlush), Steps(actions)) == Reached(m.state)
  {
    RunDrops(Start(true, finalFlush), actions);
    NothingLostIff(Start(true, finalFlush), actions);
    if NeverLoses(Start(true, finalFlush), actions) { RotationIsInvisible(Start(true, finalFlush), actions); }
  }

  /** When the event-log writer's `stop` closes the file, what was taken is written or lost. */
  lemma StopWritesWhatIsNotLost(actions: seq<Action>, m: Moment)
    requires RunOf(Start(true, true), actions) == At(m) && CanAct(m, Plain(StopClose))
    ensures multiset(m.state.data.file + Lost(Start(true, true), actions)) == multiset(Flatten(m.state.data.takes))
  {
    var d := m.state.data;
    RunKeeps(Start(true, true), actions, true, true);
    RunDrops(Start(true, true), actions);
    HandsAreEmpty(m.state, true);
    assert d.dropped == Lost(Start(true, true), actions);
    WrittenOrDropped(d);
  }

  lemma HandsAreEmpty(s: State, isOpen: bool)
    requires HandsMatch(s) && StopOrder(s, isOpen) && s.client.Closing?
    ensures s.data.flusher.Empty? && s.data.client.Empty?
  {
  }

  lemma WrittenOrDropped(d: Data)
    requires Sound(d) && d.flusher.Empty? && d.client.Empty?
    ensures multiset(d.file + d.dropped) == multiset(Flatten(d.takes))
  {
    forall e ensures Count(d.file + d.dropped, e) == Count(Flatten(d.takes), e) {
      TakenIsSomewhere(d, e);
      CountAppend(d.file, d.dropped, e);
    }
    SameCounts(d.file + d.dropped, Flatten(d.takes));
  }

  /** Only a `flush_sync` that rotates can cost events: the flush thread's own rotations, and those of the last
      flush in `stop`, meet no test. */
  lemma LossNeedsSync(m: Moment, a: Action, isOpen: bool, finalFlush: bool)
    requires Kept(m, isOpen, finalFlush) && Loses(m, a)
    ensures m.state.client == Syncing(false)
  {
    HolderCases(m.state.fileLock);
  }

  lemma ActWithoutSync(m: Moment, a: Action, isOpen: bool, finalFlush: bool)
    requires Kept(m, isOpen, finalFlush) && OnlyStopTakes(m.state.client) && CanAct(m, a) && a != Plain(SyncTake)
    ensures !Loses(m, a) && OnlyStopTakes(Act(m, a).state.client)
  {
    if Loses(m, a) { LossNeedsSync(m, a, isOpen, finalFlush); }
    if a.Plain? { OnlyStopGoesOn(m.state, a.step); }
  }

  lemma {:induction false} WithoutSyncNothingLost(m: Moment, actions: seq<Action>, isOpen: bool, finalFlush: bool)
    requires Kept(m, isOpen, finalFlush) && OnlyStopTakes(m.state.client) && Plain(SyncTake) !in actions
    ensures NeverLoses(m, actions)
    decreases |actions|
  {
    if actions != [] && CanAct(m, actions[0]) {
      assert actions[0] in actions;
      ActKeeps(m, actions[0], isOpen, finalFlush);
      ActWithoutSync(m, actions[0], isOpen, finalFlush);
      WithoutSyncNothingLost(Act(m, actions[0]), actions[1..], isOpen, finalFlush);
    }
  }

  /** A run in which nobody calls `flush_sync` loses nothing, whatever rotates when. */
  lemma NoSyncNoLoss(actions: seq<Action>, m: Moment, finalFlush: bool)
    requires RunOf(Start(true, finalFlush), actions) == At(m) && m.state.isOpen && Plain(SyncTake) !in actions
    ensures m.state.data.dropped == []
  {
    WithoutSyncNothingLost(Start(true, finalFlush), actions, true, finalFlush);
    NothingLostIffNeverTested(actions, m, finalFlush);
  }

  // ---- A loss ----

  lemma {:induction false} RunSnoc(m: Moment, actions: seq<Action>, a: Action)
    requires RunOf(m, actions).At? && CanAct(RunOf(m, actions).moment, a)
    ensures RunOf(m, actions + [a]) == At(Act(RunOf(m, actions).moment, a))
    decreases |actions|
  {
    if actions == [] {
      assert actions + [a] == [a] && [a][1..] == [];
      assert RunOf(Act(m, a), []) == At(Act(m, a));
    } else {
      assert (actions + [a])[1..] == actions[1..] + [a];
      RunSnoc(Act(m, actions[0]), actions[1..], a);
    }
  }

  ghost predicate Reachable(m: Moment, isOpen: bool, finalFlush: bool) {
    exists actions :: RunOf(Start(isOpen, finalFlush), actions) == At(m)
  }

  lemma Follow(m: Moment, a: Action, isOpen: bool, finalFlush: bool) returns (m': Moment)
    requires Reachable(m, isOpen, finalFlush) && CanAct(m, a)
    ensures m' == Act(m, a) && Reachable(m', isOpen, finalFlush)
  {
    var actions :| RunOf(Start(isOpen, finalFlush), actions) == At(m);
    RunSnoc(Start(isOpen, finalFlush), actions, a);
    m' := Act(m, a);
  }

  function Plainly(steps: seq<Step>): seq<Action> {
    if steps == [] then [] else [Plain(steps[0])] + Plainly(steps[1..])
  }

  /** Runs without rotation are runs. */
  lemma {:induction false} StepsAreActions(s: State, steps: seq<Step>)
    requires RunFrom(s, steps).Reached?
    ensures RunOf(Moment(s, false), Plainly(steps)) == At(Moment(RunFrom(s, steps).state, false))
    decreases |steps|
  {
    if steps != [] {
      StepsAreActions(Do(s, steps[0]), steps[1..]);
      assert Plainly(steps)[0] == Plain(steps[0]) && Plainly(steps)[1..] == Plainly(steps[1..]);
    }
  }

  lemma ReachedWithout(s: State, isOpen: bool, finalFlush: bool)
    requires EventPipeline.Reachable(s, isOpen, finalFlush)
    ensures Reachable(Moment(s, false), isOpen, finalFlush)
  {
    var steps :| RunFrom(Initial(isOpen, finalFlush), steps) == Reached(s);
    StepsAreActions(Initial(isOpen, finalFlush), steps);
    assert RunOf(Start(isOpen, finalFlush), Plainly(steps)) == At(Moment(s, false));
  }

  /** It happens: the flush thread holds one event while a `flush_sync` that has written a later one rotates. */
  lemma RotationCanLose(e: Event, f: Event) returns (m: Moment)
    ensures Reachable(m, true, true) && m.state.isOpen && m.state.running
    ensures m.state.data.pushed == [e, f] && m.state.data.file == [f] && m.state.data.dropped == [e]
    ensures m.state.data.buffer == [] && m.state.data.flusher == Empty
  {
    var s := LaterBatchTaken(e, f);
    ReachedWithout(s, true, true);
    m := Follow(Moment(s, false), Plain(SyncLock), true, true);
    assert m.state.data.order == [1];
    m := Follow(m, Plain(SyncWrite), true, true);
    m := Follow(m, BeginRotation, true, true);
    m := Follow(m, Plain(FlusherTest), true, true);
    assert m.state.data.dropped == [e];
  }
}
