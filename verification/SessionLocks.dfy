/** The two non-recursive mutexes of the session manager, under any number of threads.

    A call is the sequence of lock actions it performs and of the fields it touches; a thread runs calls one after
    the other. The event bus a write notifies while holding the write lock never blocks, so it does not appear
    here. */
module SessionLocks {
  import opened Options

  datatype Lock = WriteLock | IndexLock

  /** What the threads share: the indexes of nodes, children and branches, the current branch, and what opening a
      session records, its identifier and its path. */
  datatype Field = Indexes | Current | Opened

  /** A touch that `writes` may write the field, any other only reads it. */
  datatype Action = Acquire(lock: Lock) | Release(lock: Lock) | Touch(field: Field, writes: bool)

  const TAKE_WRITE := Acquire(WriteLock)
  const TAKE_INDEX := Acquire(IndexLock)
  const GIVE_WRITE := Release(WriteLock)
  const GIVE_INDEX := Release(IndexLock)

  const OPENING: seq<Action> :=
    [TAKE_WRITE, TAKE_INDEX, Touch(Indexes, true), Touch(Current, true), Touch(Opened, true), GIVE_INDEX, GIVE_WRITE]
  const READING: seq<Action> := [TAKE_INDEX, Touch(Indexes, false), GIVE_INDEX]
  const INDEXING: seq<Action> := [TAKE_INDEX, Touch(Indexes, true), GIVE_INDEX]
  const READING_BOTH: seq<Action> := [TAKE_INDEX, Touch(Current, false), Touch(Indexes, false), GIVE_INDEX]
  const SETTING_BOTH: seq<Action> := [TAKE_INDEX, Touch(Indexes, true), Touch(Current, true), GIVE_INDEX]
  const WRITING: seq<Action> := [TAKE_WRITE, Touch(Opened, false), GIVE_WRITE]
  const APPENDING: seq<Action> :=
    [TAKE_WRITE, Touch(Opened, false), TAKE_INDEX, Touch(Indexes, true), Touch(Current, true), GIVE_INDEX, GIVE_WRITE]
  /** The branch a name is filed under is read with the write lock only. */
  const NAMING: seq<Action> := [TAKE_WRITE, Touch(Current, false), Touch(Opened, false)]

  /** The public operations, each with the outcomes that change which locks it takes: `ok` is
      false when the call throws or returns early, and the counts are loop iterations. */
  datatype Call =
    | Open(ok: bool)
    | SessionId
    | FlushAppend(ok: bool)
    | WriteMeta
    | Load(records: nat)
    | Read
    | CurrentBranch
    | Switch(ok: bool)
    | Fork(reloads: bool, records: nat, ok: bool)
    | Append(ok: bool, written: bool)
    | Compact(hasFile: bool, ok: bool)
    | Rename(ok: bool)
    | Migrate(messages: nat)

  function Repeat(block: seq<Action>, n: nat): seq<Action> {
    if n == 0 then [] else block + Repeat(block, n - 1)
  }

  function Flush(ok: bool): seq<Action> {
    if ok then APPENDING else WRITING
  }

  function Loading(records: nat): seq<Action> {
    [Touch(Opened, false)] + Repeat(INDEXING, records)
  }

  /** What one call does. Guards release on every way out. */
  function Actions(c: Call): seq<Action> {
    match c
    case Open(ok) => if ok then OPENING else [TAKE_WRITE, GIVE_WRITE]
    case SessionId => [Touch(Opened, false)]
    case FlushAppend(ok) => Flush(ok)
    case WriteMeta => WRITING
    case Load(n) => Loading(n)
    case Read => READING
    case CurrentBranch => [TAKE_INDEX, Touch(Current, false), GIVE_INDEX]
    case Switch(ok) => if ok then [TAKE_INDEX, Touch(Indexes, false), Touch(Current, true), GIVE_INDEX] else READING
    case Fork(reloads, n, ok) =>
      // The index guard is dropped around the reload and taken again after it.
      (if reloads then READING + Loading(n) else []) + (READING + if ok then SETTING_BOTH + WRITING else [])
    case Append(ok, written) => READING_BOTH + if ok then Flush(written) else []
    case Compact(hasFile, ok) =>
      if !hasFile then WRITING
      else [TAKE_WRITE, Touch(Opened, false)] + (READING_BOTH + ((if ok then INDEXING else []) + [GIVE_WRITE]))
    case Rename(ok) => [Touch(Opened, false)] + (NAMING + ((if ok then INDEXING else []) + [GIVE_WRITE]))
    case Migrate(n) => OPENING + (SETTING_BOTH + (Repeat(APPENDING, n) + (INDEXING + WRITING)))
  }

  function Program(calls: seq<Call>): seq<Action> {
    if calls == [] then [] else Actions(calls[0]) + Program(calls[1..])
  }

  // ---- The locking order ----

  /** Which locks a thread holds. */
  datatype Hands = Hands(write: bool, index: bool)

  const NONE: Hands := Hands(false, false)
  const WRITE: Hands := Hands(true, false)
  const INDEX: Hands := Hands(false, true)
  const BOTH: Hands := Hands(true, true)

  /** What a thread may do that no lock both sides hold protects: name a session, which reads the current branch
      without the index lock; switch it without the write lock; look at what is opened without any lock; and open
      a session. */
  datatype Habits = Habits(names: bool, switches: bool, peeks: bool, opens: bool)

  function HabitsOf(c: Call): Habits {
    Habits(c.Rename?,
           (c.Switch? && c.ok) || (c.Fork? && c.ok) || c.Migrate?,
           c.SessionId? || c.Load? || (c.Fork? && c.reloads) || c.Rename?,
           (c.Open? && c.ok) || c.Migrate?)
  }

  predicate Within(a: Habits, b: Habits) {
    (a.names ==> b.names) && (a.switches ==> b.switches) && (a.peeks ==> b.peeks) && (a.opens ==> b.opens)
  }

  /** The locks a touch needs. */
  predicate Allowed(field: Field, writes: bool, h: Hands, k: Habits) {
    match field
    case Indexes => h.index
    case Current => if writes then h.index && (h.write || k.switches) else h.index || (h.write && k.names)
    case Opened => if writes then h.write && k.opens else h.write || k.peeks
  }

  /** The write lock is taken only with empty hands, the index lock only when not already held, only what is
      held is given back, and only what is protected is touched. */
  function Move(a: Action, h: Hands, k: Habits): Option<Hands> {
    match a
    case Acquire(WriteLock) => if h == NONE then Some(WRITE) else None
    case Acquire(IndexLock) => if !h.index then Some(h.(index := true)) else None
    case Release(WriteLock) => if h.write then Some(h.(write := false)) else None
    case Release(IndexLock) => if h.index then Some(h.(index := false)) else None
    case Touch(f, w) => if Allowed(f, w, h, k) then Some(h) else None
  }

  /** What a thread holds after these actions, if they keep the order. */
  function Ends(p: seq<Action>, h: Hands, k: Habits): Option<Hands>
    decreases |p|
  {
    if p == [] then Some(h)
    else
      match Move(p[0], h, k)
      case None => None
      case Some(h') => Ends(p[1..], h', k)
  }

  /** The order is kept and everything is given back. */
  predicate Ordered(p: seq<Action>, h: Hands, k: Habits) {
    Ends(p, h, k) == Some(NONE)
  }

  lemma {:induction false} EndsThen(a: seq<Action>, b: seq<Action>, h: Hands, k: Habits)
    ensures Ends(a + b, h, k) == match Ends(a, h, k) case None => None case Some(h') => Ends(b, h', k)
    decreases |a|
  {
    if a == [] {
      assert a + b == b;
    } else {
      assert (a + b)[1..] == a[1..] + b;
      if Move(a[0], h, k).Some? { EndsThen(a[1..], b, Move(a[0], h, k).value, k); }
    }
  }

  /** Going through a block action by action. */
  lemma {:induction false} Follow(p: seq<Action>, hands: seq<Hands>, k: Habits)
    requires |hands| == |p| + 1 && forall i :: 0 <= i < |p| ==> Move(p[i], hands[i], k) == Some(hands[i + 1])
    ensures Ends(p, hands[0], k) == Some(hands[|p|])
    decreases |p|
  {
    if p != [] {
      assert Move(p[0], hands[0], k) == Some(hands[1]);
      forall i | 0 <= i < |p| - 1 ensures Move(p[1..][i], hands[1..][i], k) == Some(hands[1..][i + 1]) {
        assert Move(p[i + 1], hands[i + 1], k) == Some(hands[i + 2]);
      }
      Follow(p[1..], hands[1..], k);
    }
  }

  lemma OpeningOrdered(k: Habits)
    requires k.opens
    ensures Ordered(OPENING, NONE, k)
  {
    Follow(OPENING, [NONE, WRITE, BOTH, BOTH, BOTH, BOTH, WRITE, NONE], k);
  }

  lemma FlushOrdered(ok: bool, k: Habits)
    ensures Ordered(Flush(ok), NONE, k)
  {
    Follow(APPENDING, [NONE, WRITE, WRITE, BOTH, BOTH, BOTH, WRITE, NONE], k);
    Follow(WRITING, [NONE, WRITE, WRITE, NONE], k);
  }

  /** What takes the index lock only gives it back, and may run with or without the write lock. */
  lemma IndexBlocks(h: Hands, k: Habits)
    requires !h.index
    ensures Ends(READING, h, k) == Some(h) && Ends(INDEXING, h, k) == Some(h) && Ends(READING_BOTH, h, k) == Some(h)
  {
    var held := h.(index := true);
    Follow(READING, [h, held, held, h], k);
    Follow(INDEXING, [h, held, held, h], k);
    Follow(READING_BOTH, [h, held, held, held, h], k);
  }

  lemma SettingOrdered(k: Habits)
    requires k.switches
    ensures Ordered(SETTING_BOTH, NONE, k)
    ensures Ordered([TAKE_INDEX, Touch(Indexes, false), Touch(Current, true), GIVE_INDEX], NONE, k)
  {
    Follow(SETTING_BOTH, [NONE, INDEX, INDEX, INDEX, NONE], k);
    Follow([TAKE_INDEX, Touch(Indexes, false), Touch(Current, true), GIVE_INDEX], [NONE, INDEX, INDEX, INDEX, NONE], k);
  }

  lemma PeekOrdered(k: Habits)
    requires k.peeks
    ensures Ordered([Touch(Opened, false)], NONE, k)
  {
    Follow([Touch(Opened, false)], [NONE, NONE], k);
  }

  lemma {:induction false} RepeatOrdered(block: seq<Action>, n: nat, k: Habits)
    requires Ordered(block, NONE, k)
    ensures Ordered(Repeat(block, n), NONE, k)
    decreases n
  {
    if n > 0 {
      RepeatOrdered(block, n - 1, k);
      EndsThen(block, Repeat(block, n - 1), NONE, k);
    }
  }

  lemma LoadingOrdered(n: nat, k: Habits)
    requires k.peeks
    ensures Ordered(Loading(n), NONE, k)
  {
    PeekOrdered(k);
    IndexBlocks(NONE, k);
    RepeatOrdered(INDEXING, n, k);
    EndsThen([Touch(Opened, false)], Repeat(INDEXING, n), NONE, k);
  }

  lemma ForkOrdered(reloads: bool, n: nat, ok: bool, k: Habits)
    requires (reloads ==> k.peeks) && (ok ==> k.switches)
    ensures Ordered(Actions(Fork(reloads, n, ok)), NONE, k)
  {
    IndexBlocks(NONE, k);
    FlushOrdered(false, k);
    var first := if reloads then READING + Loading(n) else [];
    var last := if ok then SETTING_BOTH + WRITING else [];
    if reloads {
      LoadingOrdered(n, k);
      EndsThen(READING, Loading(n), NONE, k);
    }
    if ok {
      SettingOrdered(k);
      EndsThen(SETTING_BOTH, WRITING, NONE, k);
    }
    EndsThen(READING, last, NONE, k);
    EndsThen(first, READING + last, NONE, k);
  }

  /** What compaction and naming end with: the write lock is held, and given back last. */
  lemma TailOrdered(ok: bool, k: Habits)
    ensures Ordered((if ok then INDEXING else []) + [GIVE_WRITE], WRITE, k)
  {
    IndexBlocks(WRITE, k);
    Follow([GIVE_WRITE], [WRITE, NONE], k);
    EndsThen(if ok then INDEXING else [], [GIVE_WRITE], WRITE, k);
  }

  lemma CompactOrdered(ok: bool, k: Habits)
    ensures Ordered(Actions(Compact(true, ok)), NONE, k)
  {
    var tail := (if ok then INDEXING else []) + [GIVE_WRITE];
    TailOrdered(ok, k);
    IndexBlocks(WRITE, k);
    Follow([TAKE_WRITE, Touch(Opened, false)], [NONE, WRITE, WRITE], k);
    EndsThen(READING_BOTH, tail, WRITE, k);
    EndsThen([TAKE_WRITE, Touch(Opened, false)], READING_BOTH + tail, NONE, k);
  }

  lemma RenameOrdered(ok: bool, k: Habits)
    requires k.names && k.peeks
    ensures Ordered(Actions(Rename(ok)), NONE, k)
  {
    var tail := (if ok then INDEXING else []) + [GIVE_WRITE];
    TailOrdered(ok, k);
    PeekOrdered(k);
    Follow(NAMING, [NONE, WRITE, WRITE, WRITE], k);
    EndsThen(NAMING, tail, NONE, k);
    EndsThen([Touch(Opened, false)], NAMING + tail, NONE, k);
  }

  lemma MigrateOrdered(n: nat, k: Habits)
    requires k.switches && k.opens
    ensures Ordered(Actions(Migrate(n)), NONE, k)
  {
    OpeningOrdered(k);
    SettingOrdered(k);
    IndexBlocks(NONE, k);
    FlushOrdered(true, k);
    FlushOrdered(false, k);
    RepeatOrdered(APPENDING, n, k);
    EndsThen(INDEXING, WRITING, NONE, k);
    EndsThen(Repeat(APPENDING, n), INDEXING + WRITING, NONE, k);
    EndsThen(SETTING_BOTH, Repeat(APPENDING, n) + (INDEXING + WRITING), NONE, k);
    EndsThen(OPENING, SETTING_BOTH + (Repeat(APPENDING, n) + (INDEXING + WRITING)), NONE, k);
  }

  /** Every operation keeps the locking order, and touches nothing unprotected beyond its habits. */
  lemma CallOrdered(c: Call, k: Habits)
    requires Within(HabitsOf(c), k)
    ensures Ordered(Actions(c), NONE, k)
  {
    match c
    case Open(ok) => if ok { OpeningOrdered(k); } else { Follow([TAKE_WRITE, GIVE_WRITE], [NONE, WRITE, NONE], k); }
    case SessionId => PeekOrdered(k);
    case FlushAppend(ok) => FlushOrdered(ok, k);
    case WriteMeta => FlushOrdered(false, k);
    case Load(n) => LoadingOrdered(n, k);
    case Read => IndexBlocks(NONE, k);
    case CurrentBranch => Follow([TAKE_INDEX, Touch(Current, false), GIVE_INDEX], [NONE, INDEX, INDEX, NONE], k);
    case Switch(ok) => if ok { SettingOrdered(k); } else { IndexBlocks(NONE, k); }
    case Fork(reloads, n, ok) => ForkOrdered(reloads, n, ok, k);
    case Append(ok, written) =>
      IndexBlocks(NONE, k);
      FlushOrdered(written, k);
      EndsThen(READING_BOTH, if ok then Flush(written) else [], NONE, k);
    case Compact(hasFile, ok) => if hasFile { CompactOrdered(ok, k); } else { FlushOrdered(false, k); }
    case Rename(ok) => RenameOrdered(ok, k);
    case Migrate(n) => MigrateOrdered(n, k);
  }

  lemma {:induction false} ProgramOrdered(calls: seq<Call>, k: Habits)
    requires forall c :: c in calls ==> Within(HabitsOf(c), k)
    ensures Ordered(Program(calls), NONE, k)
    decreases |calls|
  {
    if calls != [] {
      CallOrdered(calls[0], k);
      ProgramOrdered(calls[1..], k);
      EndsThen(Actions(calls[0]), Program(calls[1..]), NONE, k);
    }
  }

  // ---- Threads ----

  datatype Holder = Free | HeldBy(thread: nat)

  /** What each thread still has to do, and who holds each lock. */
  datatype State = State(todo: seq<seq<Action>>, write: Holder, index: Holder)

  function HolderOf(s: State, l: Lock): Holder {
    if l.WriteLock? then s.write else s.index
  }

  predicate Enabled(s: State, t: nat) {
    && t < |s.todo| && s.todo[t] != []
    && match s.todo[t][0]
       case Acquire(l) => HolderOf(s, l) == Free
       case Release(l) => HolderOf(s, l) == HeldBy(t)
       case Touch(_, _) => true
  }

  function After(s: State, t: nat): State
    requires Enabled(s, t)
  {
    var s' := s.(todo := s.todo[t := s.todo[t][1..]]);
    match s.todo[t][0]
    case Acquire(WriteLock) => s'.(write := HeldBy(t))
    case Acquire(IndexLock) => s'.(index := HeldBy(t))
    case Release(WriteLock) => s'.(write := Free)
    case Release(IndexLock) => s'.(index := Free)
    case Touch(_, _) => s'
  }

  function Initial(threads: seq<seq<Call>>): State {
    State(seq(|threads|, i requires 0 <= i < |threads| => Program(threads[i])), Free, Free)
  }

  datatype Outcome = Stuck | Reached(state: State)

  /** Running threads in the order of `schedule`; stuck when it asks a blocked thread to move. */
  function RunFrom(s: State, schedule: seq<nat>): Outcome
    decreases |schedule|
  {
    if schedule == [] then Reached(s)
    else if Enabled(s, schedule[0]) then RunFrom(After(s, schedule[0]), schedule[1..])
    else Stuck
  }

  predicate Finished(s: State) {
    forall t :: 0 <= t < |s.todo| ==> s.todo[t] == []
  }

  function HandsOf(s: State, t: nat): Hands {
    Hands(s.write == HeldBy(t), s.index == HeldBy(t))
  }

  /** What a thread does as a whole is within its habits. */
  function ThreadHabits(calls: seq<Call>): Habits {
    Habits(exists c :: c in calls && HabitsOf(c).names, exists c :: c in calls && HabitsOf(c).switches,
           exists c :: c in calls && HabitsOf(c).peeks, exists c :: c in calls && HabitsOf(c).opens)
  }

  ghost predicate Inv(s: State, threads: seq<seq<Call>>) {
    && |s.todo| == |threads|
    && (forall t :: 0 <= t < |s.todo| ==> Ordered(s.todo[t], HandsOf(s, t), ThreadHabits(threads[t])))
    && (s.write.HeldBy? ==> s.write.thread < |s.todo|)
    && (s.index.HeldBy? ==> s.index.thread < |s.todo|)
  }

  lemma InitialInv(threads: seq<seq<Call>>)
    ensures Inv(Initial(threads), threads)
  {
    forall t | 0 <= t < |threads| ensures Ordered(Initial(threads).todo[t], NONE, ThreadHabits(threads[t])) {
      ProgramOrdered(threads[t], ThreadHabits(threads[t]));
    }
  }

  lemma AfterInv(s: State, t: nat, threads: seq<seq<Call>>)
    requires Inv(s, threads) && Enabled(s, t)
    ensures Inv(After(s, t), threads)
  {
  }

  lemma {:induction false} RunInv(s: State, schedule: seq<nat>, threads: seq<seq<Call>>)
    requires Inv(s, threads) && RunFrom(s, schedule).Reached?
    ensures Inv(RunFrom(s, schedule).state, threads)
    decreases |schedule|
  {
    if schedule != [] {
      AfterInv(s, schedule[0], threads);
      RunInv(After(s, schedule[0]), schedule[1..], threads);
    }
  }

  /** Whoever holds the index lock can give it back; failing that, whoever holds the write lock can
      go on; failing that, anybody with work left can start. */
  lemma SomeoneCanMove(s: State, threads: seq<seq<Call>>) returns (t: nat)
    requires Inv(s, threads) && !Finished(s)
    ensures Enabled(s, t)
  {
    if s.index.HeldBy? {
      t := s.index.thread;
    } else if s.write.HeldBy? {
      t := s.write.thread;
    } else {
      t :| t < |s.todo| && s.todo[t] != [];
    }
  }

  function Left(todo: seq<seq<Action>>): nat {
    if todo == [] then 0 else |todo[0]| + Left(todo[1..])
  }

  lemma {:induction false} LeftAfter(todo: seq<seq<Action>>, t: nat)
    requires t < |todo| && todo[t] != []
    ensures Left(todo[t := todo[t][1..]]) == Left(todo) - 1
    decreases |todo|
  {
    if t > 0 {
      assert todo[t := todo[t][1..]][1..] == todo[1..][t - 1 := todo[1..][t - 1][1..]];
      LeftAfter(todo[1..], t - 1);
    } else {
      assert todo[0 := todo[0][1..]][1..] == todo[1..];
    }
  }

  lemma {:induction false} NothingLeft(todo: seq<seq<Action>>)
    ensures Left(todo) == 0 <==> forall t :: 0 <= t < |todo| ==> todo[t] == []
    decreases |todo|
  {
    if todo != [] {
      NothingLeft(todo[1..]);
      assert forall t :: 0 < t < |todo| ==> todo[t] == todo[1..][t - 1];
      assert forall t :: 0 <= t < |todo[1..]| ==> todo[1..][t] == todo[t + 1];
    }
  }

  lemma {:induction false} RunCountsDown(s: State, schedule: seq<nat>)
    requires RunFrom(s, schedule).Reached?
    ensures Left(RunFrom(s, schedule).state.todo) + |schedule| == Left(s.todo)
    decreases |schedule|
  {
    if schedule != [] {
      LeftAfter(s.todo, schedule[0]);
      RunCountsDown(After(s, schedule[0]), schedule[1..]);
    }
  }

  /** No deadlock: in every state any threads can reach together, either all calls are done or
      some thread can move. */
  lemma NoDeadlock(threads: seq<seq<Call>>, schedule: seq<nat>)
    requires RunFrom(Initial(threads), schedule).Reached?
    ensures var s := RunFrom(Initial(threads), schedule).state;
            Finished(s) || exists t :: Enabled(s, t)
  {
    InitialInv(threads);
    RunInv(Initial(threads), schedule, threads);
    var s := RunFrom(Initial(threads), schedule).state;
    if !Finished(s) { var t := SomeoneCanMove(s, threads); }
  }

  /** Every run is as long as the work there is, at most; it has finished all calls exactly when
      it has done all of it. */
  lemma RunsEnd(threads: seq<seq<Call>>, schedule: seq<nat>)
    requires RunFrom(Initial(threads), schedule).Reached?
    ensures |schedule| <= Left(Initial(threads).todo)
    ensures Finished(RunFrom(Initial(threads), schedule).state) <==> |schedule| == Left(Initial(threads).todo)
  {
    RunCountsDown(Initial(threads), schedule);
    NothingLeft(RunFrom(Initial(threads), schedule).state.todo);
  }

  /** The order is what matters: one operation that takes the write lock while holding the index
      lock, next to one ordinary append, reaches a state where both wait for ever. */
  lemma ReversedOrderDeadlocks() returns (s: State, schedule: seq<nat>)
    ensures s == State([APPENDING, [TAKE_INDEX, TAKE_WRITE, GIVE_WRITE, GIVE_INDEX]], Free, Free)
    ensures RunFrom(s, schedule).Reached?
    ensures var r := RunFrom(s, schedule).state; !Finished(r) && forall t :: !Enabled(r, t)
  {
    s := State([APPENDING, [TAKE_INDEX, TAKE_WRITE, GIVE_WRITE, GIVE_INDEX]], Free, Free);
    schedule := [0, 0, 1];
    var one := After(s, 0);
    var two := After(one, 0);
    var three := After(two, 1);
    assert schedule[1..] == [0, 1] && schedule[1..][1..] == [1] && schedule[1..][1..][1..] == [];
    assert RunFrom(three, []) == Reached(three) && RunFrom(two, [1]) == Reached(three);
    assert RunFrom(one, [0, 1]) == Reached(three);
    assert three.todo[0][0] == TAKE_INDEX && three.todo[1][0] == TAKE_WRITE;
  }
}
