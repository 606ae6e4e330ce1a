/** When the file of the event writers is in push order: exactly when no thread begins a batch while
    the other one still has an earlier batch in hand. */
module EventOrder {
  import opened EventBatches
  import opened EventPipeline

  // ---- Batches in order ----

  /** No batch is begun before an earlier one that has events. */
  ghost predicate InOrder(takes: seq<seq<Event>>, order: seq<nat>) {
    && (forall i, j :: 0 <= i < j < |order| ==> order[i] < order[j])
    && (forall a: nat, b :: b in order && a < b && BatchAt(takes, a) != [] ==> a in order)
  }

  /** One past the last batch begun. */
  function UpTo(order: seq<nat>): nat {
    if order == [] then 0 else order[|order| - 1] + 1
  }

  lemma InOrderPrefix(takes: seq<seq<Event>>, order: seq<nat>, k: nat)
    requires InOrder(takes, order) && k <= |order|
    ensures InOrder(takes, order[..k])
  {
    var first := order[..k];
    forall a: nat, b | b in first && a < b && BatchAt(takes, a) != [] ensures a in first {
      var j :| 0 <= j < k && first[j] == b;
      assert order[j] == b && b in order;
      var i :| 0 <= i < |order| && order[i] == a;
      assert i < j && first[i] == a;
    }
  }

  lemma {:induction false} EmptyBatches(takes: seq<seq<Event>>, i: nat, j: nat)
    requires i <= j <= |takes| && forall k: nat :: i <= k < j ==> takes[k] == []
    ensures Flatten(takes[..j]) == Flatten(takes[..i])
    decreases j - i
  {
    if i < j {
      FlattenNext(takes, j - 1);
      EmptyBatches(takes, i, j - 1);
    }
  }

  lemma FlattenNext(takes: seq<seq<Event>>, b: nat)
    requires b < |takes|
    ensures Flatten(takes[..b + 1]) == Flatten(takes[..b]) + takes[b]
  {
    assert takes[..b + 1][..b] == takes[..b];
  }

  lemma NotBegun(order: seq<nat>, k: nat)
    requires forall i, j :: 0 <= i < j < |order| ==> order[i] < order[j]
    requires UpTo(order) <= k
    ensures k !in order
  {
    forall i | 0 <= i < |order| ensures order[i] != k {
      assert i < |order| - 1 ==> order[i] < order[|order| - 1];
    }
  }

  lemma GapIsEmpty(takes: seq<seq<Event>>, order: seq<nat>, k: nat)
    requires order != [] && InOrder(takes, order)
    requires UpTo(order[..|order| - 1]) <= k < order[|order| - 1]
    ensures BatchAt(takes, k) == []
  {
    var before, last := order[..|order| - 1], order[|order| - 1];
    NotBegun(before, k);
    assert order == before + [last];
    assert last in order && k !in order;
  }

  lemma GapIsFlat(takes: seq<seq<Event>>, order: seq<nat>)
    requires order != [] && InOrder(takes, order) && forall i :: 0 <= i < |order| ==> order[i] < |takes|
    ensures UpTo(order[..|order| - 1]) <= order[|order| - 1]
    ensures Flatten(takes[..order[|order| - 1]]) == Flatten(takes[..UpTo(order[..|order| - 1])])
  {
    var before, b := order[..|order| - 1], order[|order| - 1];
    assert before != [] ==> before[|before| - 1] < b;
    forall k: nat | UpTo(before) <= k < b ensures takes[k] == [] { GapIsEmpty(takes, order, k); }
    EmptyBatches(takes, UpTo(before), b);
  }

  /** Batches begun in order are everything up to the last of them. */
  lemma {:induction false} InOrderIsWhole(takes: seq<seq<Event>>, order: seq<nat>)
    requires InOrder(takes, order) && forall i :: 0 <= i < |order| ==> order[i] < |takes|
    ensures UpTo(order) <= |takes| && Batches(takes, order) == Flatten(takes[..UpTo(order)])
    decreases |order|
  {
    if order == [] {
      assert takes[..0] == [];
    } else {
      InOrderPrefix(takes, order, |order| - 1);
      InOrderIsWhole(takes, order[..|order| - 1]);
      GapIsFlat(takes, order);
      FlattenNext(takes, order[|order| - 1]);
    }
  }

  lemma WrittenBefore(d: Data, h: Hand)
    requires WritingLast(d, h)
    ensures d.file <= Batches(d.takes, d.order)
  {
    assert Before(d) + [h.batch] == d.order;
    PrefixOfSum(Batches(d.takes, Before(d)), BatchAt(d.takes, h.batch), h.at);
  }

  lemma PrefixOfSum(a: seq<Event>, b: seq<Event>, n: nat)
    requires n <= |b|
    ensures a + b[..n] <= a + b
  {
  }

  lemma PrefixOfPrefix(a: seq<Event>, b: seq<Event>, c: seq<Event>)
    requires a <= b && b <= c
    ensures a <= c
  {
  }

  /** Then the file is a prefix of what was pushed, at any moment. */
  lemma InOrderIsPushOrder(d: Data)
    requires Sound(d) && InOrder(d.takes, d.order)
    ensures d.file <= d.pushed
  {
    if d.flusher.Writes? { WrittenBefore(d, d.flusher); } else if d.client.Writes? { WrittenBefore(d, d.client); }
    InOrderIsWhole(d.takes, d.order);
    FlattenPrefix(d.takes, UpTo(d.order));
    PrefixOfPrefix(d.file, Batches(d.takes, d.order), Flatten(d.takes));
    PrefixOfPrefix(d.file, Flatten(d.takes), d.pushed);
  }

  // ---- And back ----

  ghost predicate Distinct(events: seq<Event>) {
    forall i, j :: 0 <= i < j < |events| ==> events[i] != events[j]
  }

  lemma PlaceInPushed(takes: seq<seq<Event>>, pushed: seq<Event>, b: nat)
    requires b < |takes| && takes[b] != [] && Flatten(takes) <= pushed
    ensures |Flatten(takes[..b])| < |pushed| && pushed[|Flatten(takes[..b])|] == takes[b][0]
    ensures |Flatten(takes[..b])| < |Flatten(takes[..b + 1])|
  {
    FlattenNext(takes, b);
    FlattenPrefix(takes, b + 1);
  }

  lemma Offset(takes: seq<seq<Event>>, pushed: seq<Event>, n: nat, b: nat)
    requires n <= |takes| && b < |takes| && takes[b] != [] && Flatten(takes) <= pushed && Distinct(pushed)
    requires Flatten(takes[..n]) + takes[b] <= pushed
    ensures |Flatten(takes[..n])| == |Flatten(takes[..b])| < |Flatten(takes[..b + 1])|
  {
    PlaceInPushed(takes, pushed, b);
    SecondHalf(Flatten(takes[..n]), takes[b], pushed);
  }

  lemma SecondHalf(a: seq<Event>, b: seq<Event>, whole: seq<Event>)
    requires a + b <= whole && b != []
    ensures |a| < |whole| && whole[|a|] == b[0]
  {
    assert (a + b)[|a|] == b[0];
  }

  /** If all events differ, writing a batch after others keeps the file in push order only if no batch
      with events lies between. */
  lemma NextIsAdjacent(takes: seq<seq<Event>>, pushed: seq<Event>, n: nat, b: nat)
    requires n <= |takes| && b < |takes| && takes[b] != [] && Flatten(takes) <= pushed && Distinct(pushed)
    requires Flatten(takes[..n]) + takes[b] <= pushed
    ensures n <= b && forall k: nat :: n <= k < b ==> takes[k] == []
  {
    Offset(takes, pushed, n, b);
    if n > b { LongerFlatten(takes, b + 1, n); }
    forall k: nat | n <= k < b ensures takes[k] == [] { BetweenIsEmpty(takes, n, k, b); }
  }

  lemma BetweenIsEmpty(takes: seq<seq<Event>>, n: nat, k: nat, b: nat)
    requires n <= k < b <= |takes| && |Flatten(takes[..n])| == |Flatten(takes[..b])|
    ensures takes[k] == []
  {
    LongerFlatten(takes, n, k);
    LongerFlatten(takes, k + 1, b);
    FlattenNext(takes, k);
  }

  lemma LongerFlatten(takes: seq<seq<Event>>, i: nat, j: nat)
    requires i <= j <= |takes|
    ensures |Flatten(takes[..i])| <= |Flatten(takes[..j])|
  {
    FlattenPrefix(takes[..j], i);
    assert takes[..j][..i] == takes[..i];
  }

  lemma OneMoreInOrder(takes: seq<seq<Event>>, before: seq<nat>, b: nat)
    requires InOrder(takes, before) && UpTo(before) <= b
    requires forall k: nat :: UpTo(before) <= k < b ==> BatchAt(takes, k) == []
    ensures InOrder(takes, before + [b])
  {
    forall i | 0 <= i < |before| ensures before[i] < b {
      if i < |before| - 1 { assert before[i] < before[|before| - 1]; }
    }
    forall a: nat, c | c in before + [b] && a < c && BatchAt(takes, a) != [] ensures a in before + [b] {
      if c == b {
        assert a < UpTo(before);
        if a != before[|before| - 1] { assert before[|before| - 1] in before; }
      } else {
        assert a in before;
      }
    }
  }

  lemma {:induction false} PushOrderIsInOrder(takes: seq<seq<Event>>, order: seq<nat>, pushed: seq<Event>)
    requires forall i :: 0 <= i < |order| ==> order[i] < |takes| && BatchAt(takes, order[i]) != []
    requires Flatten(takes) <= pushed && Distinct(pushed) && Batches(takes, order) <= pushed
    ensures InOrder(takes, order)
    decreases |order|
  {
    if order != [] {
      var before, b := order[..|order| - 1], order[|order| - 1];
      assert before + [b] == order;
      PushOrderIsInOrder(takes, before, pushed);
      InOrderIsWhole(takes, before);
      NextIsAdjacent(takes, pushed, UpTo(before), b);
      OneMoreInOrder(takes, before, b);
    }
  }

  /** With the lock free and all events different, the file is in push order only if the batches are. */
  lemma PushOrderIffInOrder(d: Data)
    requires Sound(d) && NoEmptyBatch(d) && Distinct(d.pushed) && !d.flusher.Writes? && !d.client.Writes?
    ensures d.file <= d.pushed <==> InOrder(d.takes, d.order)
  {
    if InOrder(d.takes, d.order) { InOrderIsPushOrder(d); }
    if d.file <= d.pushed {
      assert Flatten(d.takes) <= d.pushed;
      PushOrderIsInOrder(d.takes, d.order, d.pushed);
    }
  }

  // ---- Runs ----

  /** The step begins a batch while the other thread has an earlier one, with events, in hand. */
  predicate Overtakes(s: State, step: Step) {
    && Can(s, step)
    && ((step.FlusherLock? && HoldsEarlier(s.data, Flusher))
        || (step.SyncLock? && !NothingToDo(s, Client) && HoldsEarlier(s.data, Client)))
  }

  predicate HoldsEarlier(d: Data, w: Who)
    requires HandOf(d, w).Holds?
  {
    var other := HandOf(d, Other(w));
    other.Holds? && other.batch < HandOf(d, w).batch && BatchAt(d.takes, other.batch) != []
  }

  ghost predicate NoOvertaking(s: State, steps: seq<Step>)
    decreases |steps|
  {
    steps != [] && Can(s, steps[0]) ==> !Overtakes(s, steps[0]) && NoOvertaking(Do(s, steps[0]), steps[1..])
  }

  lemma BeginInOrderIff(d: Data, w: Who)
    requires Sound(d) && AllPlaced(d) && HandOf(d, w).Holds? && BatchAt(d.takes, HandOf(d, w).batch) != []
    ensures InOrder(d.takes, d.order + [HandOf(d, w).batch]) <==> InOrder(d.takes, d.order) && !HoldsEarlier(d, w)
  {
    var b, other := HandOf(d, w).batch, HandOf(d, Other(w));
    assert HandOf(d, w) == Holds(b);
    if InOrder(d.takes, d.order + [b]) {
      InOrderPrefix(d.takes, d.order + [b], |d.order|);
      assert (d.order + [b])[..|d.order|] == d.order;
      if HoldsEarlier(d, w) { HeldIsNotBegun(d, w, b, other.batch); }
    }
    if InOrder(d.takes, d.order) && !HoldsEarlier(d, w) {
      NothingBeyond(d, w, b);
      forall k: nat | UpTo(d.order) <= k < b ensures BatchAt(d.takes, k) == [] { BelowIsBegun(d, w, b, k); }
      OneMoreInOrder(d.takes, d.order, b);
    }
  }

  lemma HeldIsNotBegun(d: Data, w: Who, b: nat, held: nat)
    requires Apart(d) && HandOf(d, Other(w)) == Holds(held) && held < b && BatchAt(d.takes, held) != []
    ensures !InOrder(d.takes, d.order + [b])
  {
    assert b in d.order + [b];
    assert held !in d.order + [b];
  }

  /** What a thread holds is not begun, so nothing later is. */
  lemma NothingBeyond(d: Data, w: Who, b: nat)
    requires Apart(d) && InOrder(d.takes, d.order) && HandOf(d, w) == Holds(b) && BatchAt(d.takes, b) != []
    ensures UpTo(d.order) <= b
  {
    if d.order != [] {
      var last := d.order[|d.order| - 1];
      assert last in d.order && last != b;
    }
  }

  lemma BelowIsBegun(d: Data, w: Who, b: nat, k: nat)
    requires AllPlaced(d) && InOrder(d.takes, d.order) && HandOf(d, w) == Holds(b) && !HoldsEarlier(d, w)
    requires UpTo(d.order) <= k < b
    ensures BatchAt(d.takes, k) == []
  {
    NotBegun(d.order, k);
    assert Placed(d, k);
  }

  lemma TakeInOrderIff(d: Data, w: Who)
    requires Apart(d)
    ensures InOrder(Take(d, w).takes, d.order) <==> InOrder(d.takes, d.order)
  {
    forall a: nat, b | b in d.order && a < b
      ensures BatchAt(Take(d, w).takes, a) == BatchAt(d.takes, a)
    {
    }
  }

  /** One step keeps the batches in order exactly when it does not overtake; and no step puts right
      what an earlier one did. */
  lemma StepInOrderIff(s: State, step: Step, isOpen: bool, finalFlush: bool)
    requires Inv(s, isOpen, finalFlush) && Can(s, step)
    ensures var d' := Do(s, step).data;
            InOrder(d'.takes, d'.order) <==> InOrder(s.data.takes, s.data.order) && !Overtakes(s, step)
  {
    if OfClient(step) {
      ClientInOrderIff(s, step, isOpen, finalFlush);
    } else {
      FlusherInOrderIff(s, step, isOpen, finalFlush);
    }
  }

  lemma ClientInOrderIff(s: State, step: Step, isOpen: bool, finalFlush: bool)
    requires Inv(s, isOpen, finalFlush) && Can(s, step) && OfClient(step)
    ensures var d' := Do(s, step).data;
            InOrder(d'.takes, d'.order) <==> InOrder(s.data.takes, s.data.order) && !Overtakes(s, step)
  {
    match step
    case SyncTake => TakeInOrderIff(s.data, Client);
    case StopTake => TakeInOrderIff(s.data, Client);
    case SyncLock => if !NothingToDo(s, Client) { BeginInOrderIff(s.data, Client); }
    case _ =>
  }

  lemma FlusherInOrderIff(s: State, step: Step, isOpen: bool, finalFlush: bool)
    requires Inv(s, isOpen, finalFlush) && Can(s, step) && !OfClient(step)
    ensures var d' := Do(s, step).data;
            InOrder(d'.takes, d'.order) <==> InOrder(s.data.takes, s.data.order) && !Overtakes(s, step)
  {
    match step
    case FlusherTake => TakeInOrderIff(s.data, Flusher);
    case FlusherLock => BeginInOrderIff(s.data, Flusher);
    case _ =>
  }

  lemma {:induction false} RunInOrderIff(s: State, steps: seq<Step>, isOpen: bool, finalFlush: bool)
    requires Inv(s, isOpen, finalFlush) && RunFrom(s, steps).Reached?
    ensures var d := RunFrom(s, steps).state.data;
            InOrder(d.takes, d.order) <==> InOrder(s.data.takes, s.data.order) && NoOvertaking(s, steps)
    decreases |steps|
  {
    if steps != [] {
      StepInv(s, steps[0], isOpen, finalFlush);
      StepInOrderIff(s, steps[0], isOpen, finalFlush);
      RunInOrderIff(Do(s, steps[0]), steps[1..], isOpen, finalFlush);
    }
  }

  // ---- Results ----

  /** In every run the batches are begun in order exactly when no step overtakes. */
  lemma InOrderIffNoOvertaking(steps: seq<Step>, s: State, isOpen: bool, finalFlush: bool)
    requires RunFrom(Initial(isOpen, finalFlush), steps) == Reached(s)
    ensures InOrder(s.data.takes, s.data.order) <==> NoOvertaking(Initial(isOpen, finalFlush), steps)
  {
    RunInOrderIff(Initial(isOpen, finalFlush), steps, isOpen, finalFlush);
  }

  /** Without overtaking the file is a prefix of what was pushed, at every moment. With it the file is
      none, whenever the lock is free and all events differ. */
  lemma PushOrderIffNoOvertaking(steps: seq<Step>, s: State, isOpen: bool, finalFlush: bool)
    requires RunFrom(Initial(isOpen, finalFlush), steps) == Reached(s)
    ensures NoOvertaking(Initial(isOpen, finalFlush), steps) ==> s.data.file <= s.data.pushed
    ensures s.fileLock == NoOne && Distinct(s.data.pushed) ==>
              (s.data.file <= s.data.pushed <==> NoOvertaking(Initial(isOpen, finalFlush), steps))
  {
    RunInv(Initial(isOpen, finalFlush), steps, isOpen, finalFlush);
    InOrderIffNoOvertaking(steps, s, isOpen, finalFlush);
    if InOrder(s.data.takes, s.data.order) { InOrderIsPushOrder(s.data); }
    if s.fileLock == NoOne && Distinct(s.data.pushed) { PushOrderIffInOrder(s.data); }
  }

  lemma StepWithoutSync(s: State, step: Step, isOpen: bool, finalFlush: bool)
    requires Inv(s, isOpen, finalFlush) && OnlyStopTakes(s.client) && Can(s, step) && !step.SyncTake?
    ensures OnlyStopTakes(Do(s, step).client) && !Overtakes(s, step)
  {
    OnlyStopGoesOn(s, step);
  }

  lemma {:induction false} WithoutSyncNoOvertaking(s: State, steps: seq<Step>, isOpen: bool, finalFlush: bool)
    requires Inv(s, isOpen, finalFlush) && OnlyStopTakes(s.client) && SyncTake !in steps
    ensures NoOvertaking(s, steps)
    decreases |steps|
  {
    if steps != [] && Can(s, steps[0]) {
      assert steps[0] in steps;
      StepInv(s, steps[0], isOpen, finalFlush);
      StepWithoutSync(s, steps[0], isOpen, finalFlush);
      WithoutSyncNoOvertaking(Do(s, steps[0]), steps[1..], isOpen, finalFlush);
    }
  }

  /** As long as nobody calls `flush_sync`, the file is in push order, and what `stop` leaves behind
      is exactly what was taken, in that order. */
  lemma WithoutSyncPushOrder(steps: seq<Step>, s: State, isOpen: bool, finalFlush: bool)
    requires RunFrom(Initial(isOpen, finalFlush), steps) == Reached(s) && SyncTake !in steps
    ensures s.data.file <= s.data.pushed
    ensures isOpen && finalFlush && Can(s, StopClose) ==> Do(s, StopClose).data.file == Flatten(s.data.takes)
  {
    RunInv(Initial(isOpen, finalFlush), steps, isOpen, finalFlush);
    WithoutSyncNoOvertaking(Initial(isOpen, finalFlush), steps, isOpen, finalFlush);
    PushOrderIffNoOvertaking(steps, s, isOpen, finalFlush);
    if isOpen && finalFlush && Can(s, StopClose) {
      StopWritesEverything(s);
      SamePrefix(s.data.file, Flatten(s.data.takes), s.data.pushed);
    }
  }

  lemma SamePrefix(a: seq<Event>, b: seq<Event>, whole: seq<Event>)
    requires a <= whole && b <= whole && multiset(a) == multiset(b)
    ensures a == b
  {
    assert |multiset(a)| == |a| && |multiset(b)| == |b|;
  }
}
