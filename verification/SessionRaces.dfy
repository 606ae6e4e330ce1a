/** Which calls may race: two threads about to touch the same field at once, one of them to write it. */
module SessionRaces {
  import opened Options
  import opened Sequences
  import opened SessionLocks

  predicate AboutTo(s: State, t: nat, field: Field, writes: bool) {
    t < |s.todo| && s.todo[t] != [] && s.todo[t][0] == Touch(field, writes)
  }

  ghost predicate Race(s: State) {
    exists t: nat, u: nat, field, writes :: t != u && AboutTo(s, t, field, true) && AboutTo(s, u, field, writes)
  }

  /** The first call reads, with no lock in common, what the second writes: naming a session reads the current
      branch, which a switch, a fork or a migration sets; asking for the session's id, loading, a fork that
      reloads, and naming read what opening or migrating sets. */
  predicate Conflict(a: Call, b: Call) {
    || (a.Rename? && ((b.Switch? && b.ok) || (b.Fork? && b.ok) || b.Migrate?))
    || ((a.SessionId? || a.Load? || (a.Fork? && a.reloads) || a.Rename?) && ((b.Open? && b.ok) || b.Migrate?))
  }

  ghost predicate Conflicting(threads: seq<seq<Call>>) {
    exists t, u, a, b ::
      && 0 <= t < |threads| && 0 <= u < |threads| && t != u
      && a in threads[t] && b in threads[u] && Conflict(a, b)
  }

  ghost predicate RaceFree(threads: seq<seq<Call>>) {
    forall schedule ::
      var r := RunFrom(Initial(threads), schedule);
      r.Reached? ==> !Race(r.state)
  }

  // ---- What calls do ----

  lemma {:induction false} RepeatHolds(block: seq<Action>, n: nat, a: Action)
    ensures a in Repeat(block, n) <==> n > 0 && a in block
    decreases n
  {
    if n > 0 { RepeatHolds(block, n - 1, a); }
  }

  /** The calls that change the indexes, and those that write to the file. */
  lemma CallWrites(c: Call)
    ensures Touch(Indexes, true) in Actions(c) <==>
            match c
            case Open(ok) => ok
            case FlushAppend(ok) => ok
            case Load(n) => n > 0
            case Fork(reloads, n, ok) => ok || (reloads && n > 0)
            case Append(ok, written) => ok && written
            case Compact(hasFile, ok) => hasFile && ok
            case Rename(ok) => ok
            case Migrate(_) => true
            case _ => false
    ensures TAKE_WRITE in Actions(c) <==>
            match c
            case Fork(_, _, ok) => ok
            case Append(ok, _) => ok
            case _ => !c.SessionId? && !c.Load? && !c.Read? && !c.CurrentBranch? && !c.Switch?
  {
    match c
    case Load(n) => RepeatHolds(INDEXING, n, Touch(Indexes, true)); RepeatHolds(INDEXING, n, TAKE_WRITE);
    case Fork(_, n, _) => RepeatHolds(INDEXING, n, Touch(Indexes, true)); RepeatHolds(INDEXING, n, TAKE_WRITE);
    case _ =>
  }

  // ---- Without a conflict there is no race ----

  lemma TouchIsAllowed(s: State, threads: seq<seq<Call>>, t: nat, field: Field, writes: bool)
    requires Inv(s, threads) && AboutTo(s, t, field, writes)
    ensures Allowed(field, writes, HandsOf(s, t), ThreadHabits(threads[t]))
  {
    assert Ordered(s.todo[t], HandsOf(s, t), ThreadHabits(threads[t]));
  }

  lemma RaceTakesConflict(s: State, threads: seq<seq<Call>>, t: nat, u: nat, field: Field, writes: bool)
    requires Inv(s, threads) && t != u && AboutTo(s, t, field, true) && AboutTo(s, u, field, writes)
    ensures Conflicting(threads)
  {
    TouchIsAllowed(s, threads, t, field, true);
    TouchIsAllowed(s, threads, u, field, writes);
    var reader, writer := ThreadHabits(threads[u]), ThreadHabits(threads[t]);
    if field == Current {
      var a :| a in threads[u] && HabitsOf(a).names;
      var b :| b in threads[t] && HabitsOf(b).switches;
      assert Conflict(a, b);
    } else {
      var a :| a in threads[u] && HabitsOf(a).peeks;
      var b :| b in threads[t] && HabitsOf(b).opens;
      assert Conflict(a, b);
    }
  }

  // ---- A conflict makes a race ----

  const ANY: Habits := Habits(true, true, true, true)

  function Times(t: nat, n: nat): seq<nat> {
    seq(n, _ => t)
  }

  lemma {:induction false} RunThen(s: State, a: seq<nat>, b: seq<nat>)
    requires RunFrom(s, a).Reached?
    ensures RunFrom(s, a + b) == RunFrom(RunFrom(s, a).state, b)
    decreases |a|
  {
    if a == [] {
      assert a + b == b;
    } else {
      assert (a + b)[1..] == a[1..] + b;
      RunThen(After(s, a[0]), a[1..], b);
    }
  }

  /** What a thread leaves when nobody else holds a lock and it goes through `p` alone. */
  function Gone(s: State, t: nat, rest: seq<Action>, h: Hands): State
    requires t < |s.todo|
  {
    State(s.todo[t := rest], if h.write then HeldBy(t) else Free, if h.index then HeldBy(t) else Free)
  }

  predicate Unhindered(s: State, t: nat) {
    (s.write == Free || s.write == HeldBy(t)) && (s.index == Free || s.index == HeldBy(t))
  }

  lemma StepAlone(s: State, t: nat)
    requires t < |s.todo| && s.todo[t] != [] && Unhindered(s, t) && Move(s.todo[t][0], HandsOf(s, t), ANY).Some?
    ensures Enabled(s, t)
    ensures After(s, t) == Gone(s, t, s.todo[t][1..], Move(s.todo[t][0], HandsOf(s, t), ANY).value)
  {
  }

  lemma {:induction false} RunAlone(s: State, t: nat, p: seq<Action>, rest: seq<Action>, h: Hands)
    requires t < |s.todo| && s.todo[t] == p + rest && Unhindered(s, t)
    requires Ends(p, HandsOf(s, t), ANY) == Some(h)
    ensures RunFrom(s, Times(t, |p|)) == Reached(Gone(s, t, rest, h))
    decreases |p|
  {
    if p == [] {
      assert p + rest == rest && s.todo[t := rest] == s.todo;
    } else {
      assert s.todo[t][0] == p[0] && s.todo[t][1..] == p[1..] + rest;
      StepAlone(s, t);
      var next := After(s, t);
      assert HandsOf(next, t) == Move(p[0], HandsOf(s, t), ANY).value;
      RunAlone(next, t, p[1..], rest, h);
      assert next.todo[t := rest] == s.todo[t := rest];
      assert Times(t, |p|)[0] == t && Times(t, |p|)[1..] == Times(t, |p[1..]|);
    }
  }

  lemma {:induction false} ProgramSplits(calls: seq<Call>, i: nat)
    requires i < |calls|
    ensures Program(calls) == Program(calls[..i]) + (Actions(calls[i]) + Program(calls[i + 1..]))
    decreases i
  {
    if i > 0 {
      ProgramSplits(calls[1..], i - 1);
      assert calls[..i][1..] == calls[1..][..i - 1] && calls[1..][i - 1] == calls[i];
      assert calls[1..][i - 1 + 1..] == calls[i + 1..];
    }
  }

  /** A thread may come to any place inside any of its calls while nobody else holds a lock. */
  lemma ComeTo(s: State, t: nat, calls: seq<Call>, i: nat, before: seq<Action>, next: Action,
               after: seq<Action>, h: Hands)
    returns (s': State, schedule: seq<nat>)
    requires t < |s.todo| && s.todo[t] == Program(calls) && s.write == Free && s.index == Free
    requires i < |calls| && Actions(calls[i]) == before + ([next] + after) && Ends(before, NONE, ANY) == Some(h)
    ensures RunFrom(s, schedule) == Reached(s')
    ensures s' == Gone(s, t, [next] + (after + Program(calls[i + 1..])), h)
  {
    var done, rest := Program(calls[..i]), [next] + (after + Program(calls[i + 1..]));
    ProgramSplits(calls, i);
    Regroup(done, before, next, after, Program(calls[i + 1..]));
    ProgramOrdered(calls[..i], ANY);
    EndsThen(done, before, NONE, ANY);
    schedule := Times(t, |done + before|);
    RunAlone(s, t, done + before, rest, h);
    s' := Gone(s, t, rest, h);
  }

  lemma Regroup(done: seq<Action>, before: seq<Action>, next: Action, after: seq<Action>, more: seq<Action>)
    ensures done + ((before + ([next] + after)) + more) == (done + before) + ([next] + (after + more))
  {
  }

  /** Where a call looks at what is opened without any lock. */
  lemma PeekAt(c: Call) returns (before: seq<Action>, after: seq<Action>)
    requires HabitsOf(c).peeks
    ensures Actions(c) == before + ([Touch(Opened, false)] + after) && Ends(before, NONE, ANY) == Some(NONE)
  {
    if c.Fork? {
      before, after := READING, Repeat(INDEXING, c.records) + (READING + if c.ok then SETTING_BOTH + WRITING else []);
      IndexBlocks(NONE, ANY);
    } else {
      before, after := [], Actions(c)[1..];
    }
  }

  /** Where a call sets what is opened. */
  lemma OpenAt(c: Call) returns (before: seq<Action>, after: seq<Action>)
    requires HabitsOf(c).opens
    ensures Actions(c) == before + ([Touch(Opened, true)] + after) && Ends(before, NONE, ANY) == Some(BOTH)
  {
    before := [TAKE_WRITE, TAKE_INDEX, Touch(Indexes, true), Touch(Current, true)];
    var rest := [GIVE_INDEX, GIVE_WRITE];
    Follow(before, [NONE, WRITE, BOTH, BOTH, BOTH], ANY);
    assert OPENING == before + ([Touch(Opened, true)] + rest);
    if c.Migrate? {
      after := rest + (SETTING_BOTH + (Repeat(APPENDING, c.messages) + (INDEXING + WRITING)));
      Regroup([], before, Touch(Opened, true), rest, Actions(c)[7..]);
    } else {
      after := rest;
    }
  }

  /** The block that sets indexes and current branch, after any start and before anything else. */
  lemma SettingIn(start: seq<Action>, more: seq<Action>) returns (before: seq<Action>, after: seq<Action>)
    requires Ordered(start, NONE, ANY)
    ensures start + (SETTING_BOTH + more) == before + ([Touch(Current, true)] + after)
    ensures Ends(before, NONE, ANY) == Some(INDEX)
  {
    var two := [TAKE_INDEX, Touch(Indexes, true)];
    before, after := start + two, [GIVE_INDEX] + more;
    Follow(two, [NONE, INDEX, INDEX], ANY);
    EndsThen(start, two, NONE, ANY);
    assert SETTING_BOTH == two + ([Touch(Current, true)] + [GIVE_INDEX]);
    Regroup(start, two, Touch(Current, true), [GIVE_INDEX], more);
  }

  /** Where a call sets the current branch with the index lock alone. */
  lemma SwitchAt(c: Call) returns (before: seq<Action>, after: seq<Action>)
    requires HabitsOf(c).switches
    ensures Actions(c) == before + ([Touch(Current, true)] + after) && Ends(before, NONE, ANY) == Some(INDEX)
  {
    match c
    case Fork(reloads, n, _) =>
      var first := if reloads then READING + Loading(n) else [];
      ForkStart(reloads, n);
      Associates(first, READING, SETTING_BOTH + WRITING);
      before, after := SettingIn(first + READING, WRITING);
    case Migrate(n) =>
      OpeningOrdered(ANY);
      before, after := SettingIn(OPENING, Repeat(APPENDING, n) + (INDEXING + WRITING));
    case _ =>
      before, after := [TAKE_INDEX, Touch(Indexes, false)], [GIVE_INDEX];
      Follow(before, [NONE, INDEX, INDEX], ANY);
  }

  lemma ForkStart(reloads: bool, n: nat)
    ensures Ordered((if reloads then READING + Loading(n) else []) + READING, NONE, ANY)
  {
    IndexBlocks(NONE, ANY);
    LoadingOrdered(n, ANY);
    EndsThen(READING, Loading(n), NONE, ANY);
    EndsThen(if reloads then READING + Loading(n) else [], READING, NONE, ANY);
  }

  lemma TwoAtOnce(s: State, t: nat, u: nat, field: Field, writes: bool)
    requires t != u && AboutTo(s, t, field, true) && AboutTo(s, u, field, writes)
    ensures Race(s)
  {
  }

  lemma OpenedRaces(threads: seq<seq<Call>>, t: nat, u: nat, i: nat, j: nat) returns (schedule: seq<nat>)
    requires t < |threads| && u < |threads| && t != u && i < |threads[t]| && j < |threads[u]|
    requires HabitsOf(threads[t][i]).peeks && HabitsOf(threads[u][j]).opens
    ensures RunFrom(Initial(threads), schedule).Reached? && Race(RunFrom(Initial(threads), schedule).state)
  {
    var before, after := PeekAt(threads[t][i]);
    var s1, first := ComeTo(Initial(threads), t, threads[t], i, before, Touch(Opened, false), after, NONE);
    before, after := OpenAt(threads[u][j]);
    var s2, second := ComeTo(s1, u, threads[u], j, before, Touch(Opened, true), after, BOTH);
    RunThen(Initial(threads), first, second);
    schedule := first + second;
    TwoAtOnce(s2, u, t, Opened, false);
  }

  /** From just before naming a session, next to a thread that holds the index lock. */
  lemma NamingGoesOn(s: State, t: nat, rest: seq<Action>)
    requires t < |s.todo| && s.write == Free
    requires s.todo[t] == [Touch(Opened, false)] + ([TAKE_WRITE, Touch(Current, false)] + rest)
    ensures RunFrom(s, [t, t]) == Reached(State(s.todo[t := [Touch(Current, false)] + rest], HeldBy(t), s.index))
  {
    var one := After(s, t);
    assert one.todo[t] == [TAKE_WRITE, Touch(Current, false)] + rest;
    var two := After(one, t);
    assert two.todo[t] == [Touch(Current, false)] + rest;
    assert [t, t][1..] == [t] && [t][1..] == [];
    assert RunFrom(two, []) == Reached(two) && RunFrom(one, [t]) == Reached(two);
    assert two.todo == s.todo[t := [Touch(Current, false)] + rest];
  }

  /** Where a call that names a session comes to read the current branch. */
  lemma NameAt(c: Call) returns (after: seq<Action>)
    requires c.Rename?
    ensures Actions(c) == [] + ([Touch(Opened, false)] + ([TAKE_WRITE, Touch(Current, false)] + after))
    ensures Ends([], NONE, ANY) == Some(NONE)
  {
    var end := (if c.ok then INDEXING else []) + [GIVE_WRITE];
    after := [Touch(Opened, false)] + end;
    assert NAMING + end == [TAKE_WRITE, Touch(Current, false)] + after;
  }

  /** One thread is about to take the write lock to name the session, the other to set the current branch. */
  lemma BothCome(threads: seq<seq<Call>>, t: nat, u: nat, i: nat, j: nat)
    returns (s: State, schedule: seq<nat>, rest: seq<Action>)
    requires t < |threads| && u < |threads| && t != u && i < |threads[t]| && j < |threads[u]|
    requires HabitsOf(threads[t][i]).names && HabitsOf(threads[u][j]).switches
    ensures RunFrom(Initial(threads), schedule) == Reached(s)
    ensures |s.todo| == |threads| && s.write == Free && AboutTo(s, u, Current, true)
    ensures s.todo[t] == [Touch(Opened, false)] + ([TAKE_WRITE, Touch(Current, false)] + rest)
  {
    var end := NameAt(threads[t][i]);
    var more := [TAKE_WRITE, Touch(Current, false)] + end;
    var s1, first := ComeTo(Initial(threads), t, threads[t], i, [], Touch(Opened, false), more, NONE);
    var before, after := SwitchAt(threads[u][j]);
    var s2, second := ComeTo(s1, u, threads[u], j, before, Touch(Current, true), after, INDEX);
    RunThen(Initial(threads), first, second);
    s, schedule, rest := s2, first + second, end + Program(threads[t][i + 1..]);
    Associates([TAKE_WRITE, Touch(Current, false)], end, Program(threads[t][i + 1..]));
  }

  lemma CurrentRaces(threads: seq<seq<Call>>, t: nat, u: nat, i: nat, j: nat) returns (schedule: seq<nat>)
    requires t < |threads| && u < |threads| && t != u && i < |threads[t]| && j < |threads[u]|
    requires HabitsOf(threads[t][i]).names && HabitsOf(threads[u][j]).switches
    ensures RunFrom(Initial(threads), schedule).Reached? && Race(RunFrom(Initial(threads), schedule).state)
  {
    var s, so, rest := BothCome(threads, t, u, i, j);
    NamingGoesOn(s, t, rest);
    RunThen(Initial(threads), so, [t, t]);
    schedule := so + [t, t];
    TwoAtOnce(RunFrom(s, [t, t]).state, u, t, Current, false);
  }

  lemma ConflictRaces(threads: seq<seq<Call>>) returns (schedule: seq<nat>)
    requires Conflicting(threads)
    ensures RunFrom(Initial(threads), schedule).Reached? && Race(RunFrom(Initial(threads), schedule).state)
  {
    var t, u, a, b :| 0 <= t < |threads| && 0 <= u < |threads| && t != u &&
                      a in threads[t] && b in threads[u] && Conflict(a, b);
    var i :| 0 <= i < |threads[t]| && threads[t][i] == a;
    var j :| 0 <= j < |threads[u]| && threads[u][j] == b;
    if HabitsOf(a).names && HabitsOf(b).switches {
      schedule := CurrentRaces(threads, t, u, i, j);
    } else {
      schedule := OpenedRaces(threads, t, u, i, j);
    }
  }

  /** Whatever threads run, no interleaving has two of them touch a field at once, one writing it, exactly if no
      two of them make conflicting calls. */
  lemma RaceFreeIff(threads: seq<seq<Call>>)
    ensures RaceFree(threads) <==> !Conflicting(threads)
  {
    if Conflicting(threads) {
      var schedule := ConflictRaces(threads);
    }
    if !Conflicting(threads) {
      forall schedule | RunFrom(Initial(threads), schedule).Reached?
        ensures !Race(RunFrom(Initial(threads), schedule).state)
      {
        var s := RunFrom(Initial(threads), schedule).state;
        InitialInv(threads);
        RunInv(Initial(threads), schedule, threads);
        if t: nat, u: nat, field, writes :| t != u && AboutTo(s, t, field, true) && AboutTo(s, u, field, writes) {
          RaceTakesConflict(s, threads, t, u, field, writes);
        }
      }
    }
  }
}
