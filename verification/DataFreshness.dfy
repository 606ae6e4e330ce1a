/** Whether data recorded under one genome version may still be used under another. */
module DataFreshness {
  import opened Options
  import opened Genomes
  import opened HarnessMutation

  // ---- The judgement ----

  predicate Is(g: Genome, v: Key) {
    g.name == v.0 && g.version == v.1
  }

  /** Where `v` first occurs in the walk, or its length. */
  function IndexOf(walk: seq<Genome>, v: Key, i: nat): (d: nat)
    requires i <= |walk|
    ensures i <= d <= |walk| && (d < |walk| ==> Is(walk[d], v))
    decreases |walk| - i
  {
    if i == |walk| || Is(walk[i], v) then i else IndexOf(walk, v, i + 1)
  }

  /** The versions closer than the d-th all have its harness. */
  predicate SameHarness(walk: seq<Genome>, d: nat)
    requires d < |walk|
  {
    forall i :: 0 <= i < d ==> walk[i].spec.harness == walk[d].spec.harness
  }

  function JudgeWalk(walk: seq<Genome>, v: Key): Verdict {
    var d := IndexOf(walk, v, 0);
    if d < |walk| && SameHarness(walk, d) then Attributed else Confounded
  }

  function Judge(store: Store, v: Key, current: Key): Verdict {
    if v == current then Attributed
    else if v.0 != current.0 then Confounded
    else
      match Walk(store, current.0, current.1, {})
      case Err(_) => Insufficient
      case Ok(walk) => JudgeWalk(walk, v)
  }

  method JudgeDataFreshness(store: Store, v: Key, current: Key) returns (r: Verdict)
    ensures r == Judge(store, v, current)
  {
    if v == current { return Attributed; }
    if v.0 != current.0 { return Confounded; }
    var walked := WalkAncestors(store, current.0, current.1);
    if walked.Err? { return Insufficient; }
    var walk := walked.value;
    var d := 0;
    while d < |walk| && !Is(walk[d], v)
      invariant 0 <= d <= |walk| && IndexOf(walk, v, d) == IndexOf(walk, v, 0)
    {
      d := d + 1;
    }
    if d == |walk| { return Confounded; }
    var i := d;
    while i > 0
      invariant 0 <= i <= d
      invariant forall k :: i <= k < d ==> walk[k].spec.harness == walk[d].spec.harness
    {
      i := i - 1;
      if walk[i].spec.harness != walk[d].spec.harness { return Confounded; }
    }
    r := Attributed;
  }

  lemma FirstIndex(walk: seq<Genome>, v: Key, i: nat, d: nat)
    requires i <= d < |walk| && Is(walk[d], v)
    ensures IndexOf(walk, v, i) <= d
    decreases |walk| - i
  {
    if !Is(walk[i], v) { FirstIndex(walk, v, i + 1, d); }
  }

  /** The data version is on the line, and every version down to the start has its harness. */
  ghost predicate SameHarnessUpTo(gs: seq<Genome>, v: Key) {
    exists d :: 0 <= d < |gs| && Is(gs[d], v) && forall i :: 0 <= i < d ==> gs[i].spec.harness == gs[d].spec.harness
  }

  /** The judgement in any store, well formed or not: Insufficient just if the version under judgement has no line
      of parents under its name to the first one. */
  lemma JudgeAnywhere(store: Store, v: Key, c: Key, gs: seq<Genome>)
    ensures v == c ==> Judge(store, v, c) == Attributed
    ensures v.0 != c.0 ==> Judge(store, v, c) == Confounded
    ensures v != c && v.0 == c.0 ==>
              (Judge(store, v, c) == Insufficient <==> !exists line :: IsLine(store, c.0, c.1, line))
    ensures v != c && v.0 == c.0 && IsLine(store, c.0, c.1, gs) ==>
              Judge(store, v, c) == if SameHarnessUpTo(gs, v) then Attributed else Confounded
  {
    WalkIsLine(store, c.0, c.1, gs);
    var walked := Walk(store, c.0, c.1, {});
    if walked.Ok? {
      WalkIsLine(store, c.0, c.1, walked.value);
    } else if line :| IsLine(store, c.0, c.1, line) {
      WalkIsLine(store, c.0, c.1, line);
    }
    JudgeWalkIs(gs, v);
  }

  lemma JudgeWalkIs(gs: seq<Genome>, v: Key)
    ensures JudgeWalk(gs, v) == if SameHarnessUpTo(gs, v) then Attributed else Confounded
  {
    var first := IndexOf(gs, v, 0);
    if d :| 0 <= d < |gs| && Is(gs[d], v) && forall i :: 0 <= i < d ==> gs[i].spec.harness == gs[d].spec.harness {
      FirstIndex(gs, v, 0, d);
      assert first < d ==> gs[first].spec.harness == gs[d].spec.harness;
      assert SameHarness(gs, first);
    }
  }

  // ---- What it means ----

  /** Data of `v` is good under `c`: no version from `v` down to `c` changed the harness. */
  ghost predicate Fresh(store: Store, v: Key, c: Key)
    requires WellFormed(store) && c in store
    decreases c.1
  {
    assert WellPlaced(store, c);
    v == c ||
    (store[c].parent.Of? &&
     var p := (c.0, store[c].parent.version);
     store[c].spec.harness == store[p].spec.harness && Fresh(store, v, p))
  }

  lemma {:induction false} IndexShift(g: Genome, walk: seq<Genome>, v: Key, i: nat)
    requires i <= |walk|
    ensures IndexOf([g] + walk, v, i + 1) == IndexOf(walk, v, i) + 1
    decreases |walk| - i
  {
    if i < |walk| && !Is(walk[i], v) { IndexShift(g, walk, v, i + 1); }
  }

  lemma JudgeIs(store: Store, v: Key, c: Key)
    requires WellFormed(store) && c in store && v != c && v.0 == c.0
    ensures Judge(store, v, c) == JudgeWalk(Ancestors(store, c), v)
  {
    WalkIsAncestors(store, c.0, c.1, {});
  }

  /** One step down the lineage: data is good for a child just when it is good for the parent and
      the harness is the same. */
  lemma JudgeStep(store: Store, v: Key, c: Key, p: Key)
    requires WellFormed(store) && c in store && v != c && v.0 == c.0
    requires store[c].parent == Of(p.0, p.1) && p.0 == c.0 && p in store
    ensures Judge(store, v, c) == Attributed <==>
            Judge(store, v, p) == Attributed && store[c].spec.harness == store[p].spec.harness
  {
    assert WellPlaced(store, c) && WellPlaced(store, p);
    var rest := Ancestors(store, p);
    var walk := [store[c]] + rest;
    JudgeIs(store, v, c);
    assert Ancestors(store, c) == walk;
    assert rest[0] == store[p];
    IndexShift(store[c], rest, v, 0);
    var d := IndexOf(rest, v, 0);
    assert IndexOf(walk, v, 0) == d + 1;
    if v != p { JudgeIs(store, v, p); }
    if d < |rest| {
      assert walk[d + 1] == rest[d] && walk[0] == store[c];
      assert forall i :: 0 <= i < d ==> walk[i + 1] == rest[i];
      if SameHarness(walk, d + 1) {
        assert walk[0].spec.harness == walk[d + 1].spec.harness;
        forall i | 0 <= i < d ensures rest[i].spec.harness == rest[d].spec.harness {
          assert walk[i + 1].spec.harness == walk[d + 1].spec.harness;
        }
      }
    }
  }

  /** The answer is Attributed exactly when the data is good: its version is the current one or an
      ancestor with the same harness on every version between. In a well-formed store the walk never
      fails, so otherwise it is Confounded. */
  lemma {:induction false} AttributedIffFresh(store: Store, v: Key, c: Key)
    requires WellFormed(store) && c in store
    ensures Judge(store, v, c) == if Fresh(store, v, c) then Attributed else Confounded
    decreases c.1
  {
    assert WellPlaced(store, c);
    if v != c && v.0 == c.0 {
      JudgeIs(store, v, c);
      if store[c].parent.Of? {
        var p := (c.0, store[c].parent.version);
        AttributedIffFresh(store, v, p);
        JudgeStep(store, v, c, p);
      } else {
        assert !Is(store[c], v);
      }
    } else if v != c && Fresh(store, v, c) {
      FreshHasOneName(store, v, c);
    }
  }

  lemma {:induction false} FreshHasOneName(store: Store, v: Key, c: Key)
    requires WellFormed(store) && c in store && Fresh(store, v, c)
    ensures v.0 == c.0
    decreases c.1
  {
    if v != c {
      assert WellPlaced(store, c);
      FreshHasOneName(store, v, (c.0, store[c].parent.version));
    }
  }

  // ---- Staleness is for good ----

  ghost predicate Descends(store: Store, d: Key, c: Key)
    requires WellFormed(store) && d in store
    decreases d.1
  {
    assert WellPlaced(store, d);
    d == c || (store[d].parent.Of? && Descends(store, (d.0, store[d].parent.version), c))
  }

  ghost predicate Extends(store: Store, more: Store) {
    forall k :: k in store ==> k in more && more[k] == store[k]
  }

  lemma {:induction false} DescendsIsLater(store: Store, d: Key, c: Key)
    requires WellFormed(store) && d in store && Descends(store, d, c)
    ensures c in store && c.0 == d.0 && c.1 <= d.1
    decreases d.1
  {
    assert WellPlaced(store, d);
    if d != c { DescendsIsLater(store, (d.0, store[d].parent.version), c); }
  }

  /** Later versions do not change a judgement. */
  lemma JudgeStable(store: Store, more: Store, v: Key, c: Key)
    requires WellFormed(store) && WellFormed(more) && Extends(store, more) && c in store
    ensures Judge(more, v, c) == Judge(store, v, c)
  {
    AncestorsStable(store, more, c);
    WalkIsAncestors(store, c.0, c.1, {});
    WalkIsAncestors(more, c.0, c.1, {});
  }

  lemma {:induction false} DescendsStable(store: Store, more: Store, d: Key, c: Key)
    requires WellFormed(store) && WellFormed(more) && Extends(store, more) && d in store
    ensures Descends(more, d, c) <==> Descends(store, d, c)
    decreases d.1
  {
    assert WellPlaced(store, d) && WellPlaced(more, d);
    if d != c && store[d].parent.Of? { DescendsStable(store, more, (d.0, store[d].parent.version), c); }
  }

  lemma {:induction false} FreshIsStored(store: Store, v: Key, c: Key)
    requires WellFormed(store) && c in store && Fresh(store, v, c)
    ensures v in store
    decreases c.1
  {
    assert WellPlaced(store, c);
    if v != c { FreshIsStored(store, v, (c.0, store[c].parent.version)); }
  }

  /** The line from a descendant of `c` up to `v` passes `c`, unless `v` is below `c` itself. */
  lemma {:induction false} FreshThrough(store: Store, v: Key, c: Key, d: Key)
    requires WellFormed(store) && v in store && d in store && Descends(store, d, c) && c in store
    requires Fresh(store, v, d) && !Descends(store, v, c)
    ensures Fresh(store, v, c)
    decreases d.1
  {
    assert WellPlaced(store, d);
    if d != c { FreshThrough(store, v, c, (d.0, store[d].parent.version)); }
  }

  /** `v` is not, and will never be, a descendant of `c`. */
  ghost predicate OffLine(store: Store, v: Key, c: Key)
    requires WellFormed(store)
  {
    v.0 != c.0 || v.1 < c.1 || (v in store && !Descends(store, v, c))
  }

  /** Whatever is committed from here on, data of `v` is stale under `c` and all its descendants. */
  ghost predicate StaleForever(store: Store, v: Key, c: Key)
    requires WellFormed(store)
  {
    forall more: Store, d: Key ::
      WellFormed(more) && Extends(store, more) && d in more && Descends(more, d, c) ==> Judge(more, v, d) == Confounded
  }

  lemma OffLineStays(store: Store, more: Store, v: Key, c: Key)
    requires WellFormed(store) && WellFormed(more) && Extends(store, more) && OffLine(store, v, c) && v in more
    ensures !Descends(more, v, c)
  {
    if v in store { DescendsStable(store, more, v, c); }
    if Descends(more, v, c) { DescendsIsLater(more, v, c); }
  }

  /** Data off the line of `c`, once Confounded under `c`, stays so for every descendant, however the
      store grows. */
  lemma StaysStale(store: Store, more: Store, v: Key, c: Key, d: Key)
    requires WellFormed(store) && WellFormed(more) && Extends(store, more)
    requires c in store && OffLine(store, v, c) && Judge(store, v, c) == Confounded
    requires d in more && Descends(more, d, c)
    ensures Judge(more, v, d) == Confounded
  {
    JudgeStable(store, more, v, c);
    AttributedIffFresh(more, v, c);
    AttributedIffFresh(more, v, d);
    if Fresh(more, v, d) {
      FreshIsStored(more, v, d);
      OffLineStays(store, more, v, c);
      FreshThrough(more, v, c, d);
    }
  }

  /** A later version that is on the line, or that a commit may still put there, is good data in some
      later store. */
  lemma OnLineBecomesFresh(store: Store, v: Key, c: Key) returns (more: Store)
    requires WellFormed(store) && c in store && !OffLine(store, v, c)
    ensures WellFormed(more) && Extends(store, more) && v in more && Descends(more, v, c)
    ensures Judge(more, v, v) == Attributed
  {
    assert WellPlaced(store, c);
    if v in store { return store; }
    assert v != c;
    more := store[v := store[c].(version := v.1, parent := Of(c.0, c.1))];
    forall k | k in more ensures WellPlaced(more, k) {
      if k != v { assert WellPlaced(store, k); }
    }
    assert Descends(more, c, c);
  }

  /** Data is stale for good, for a version and all that will ever descend from it, exactly when it is
      Confounded now and is of another name, older, or stored off the version's line. Newer data that
      is on the line, or not committed yet, is only early: it is Attributed under its own version. */
  lemma StaleForeverIff(store: Store, v: Key, c: Key)
    requires WellFormed(store) && c in store
    ensures StaleForever(store, v, c) <==> Judge(store, v, c) == Confounded && OffLine(store, v, c)
  {
    assert Descends(store, c, c);
    if !OffLine(store, v, c) {
      var more := OnLineBecomesFresh(store, v, c);
      assert !StaleForever(store, v, c);
    }
    if Judge(store, v, c) == Confounded && OffLine(store, v, c) {
      forall more: Store, d: Key | WellFormed(more) && Extends(store, more) && d in more && Descends(more, d, c)
        ensures Judge(more, v, d) == Confounded
      {
        StaysStale(store, more, v, c, d);
      }
    }
  }

  // ---- Accepted mutations ----

  /** The accepted prompt is stored, and differs from what the parent has. */
  predicate NewHarness(s: State, m: Mutations, gate: Gate)
    requires s.store.Some? && (gate.genomeName, gate.parentVersion) in s.store.value
  {
    && s.prompt + m.promptDelta != ""
    && s.prompt + m.promptDelta != s.store.value[(gate.genomeName, gate.parentVersion)].spec.harness
  }

  /** The new version's harness is the new prompt, or the parent's if that is empty. */
  lemma StoredHarness(s: State, m: Mutations, gate: Gate, disk: Disk)
    requires StoreOk(s) && s.store.Some? && Apply(s, m, gate, disk).0.Done?
    ensures var (r, after) := Apply(s, m, gate, disk);
            var k, p := (gate.genomeName, r.applied.genomeVersion), (gate.genomeName, gate.parentVersion);
            && after.store.Some? && WellFormed(after.store.value) && k in after.store.value && p in s.store.value
            && p.1 < k.1 && Extends(s.store.value, after.store.value)
            && after.store.value[k].parent == Of(p.0, p.1)
            && after.store.value[k].spec.harness ==
               if s.prompt + m.promptDelta != "" then s.prompt + m.promptDelta else s.store.value[p].spec.harness
  {
    ForkIff(s.store.value, gate.genomeName, gate.parentVersion, Proposed(s, m), disk);
  }

  /** An accepted mutation makes all older data of the name stale under the new version exactly when the
      new prompt is not empty and not what the parent has stored, which a caller can tell before. */
  lemma AcceptedDeltaStalesIff(s: State, m: Mutations, gate: Gate, disk: Disk)
    requires StoreOk(s) && s.store.Some? && Apply(s, m, gate, disk).0.Done?
    ensures (gate.genomeName, gate.parentVersion) in s.store.value
    ensures var (r, after) := Apply(s, m, gate, disk);
            var k := (gate.genomeName, r.applied.genomeVersion);
            (forall v: Key :: v.0 == k.0 && v.1 < k.1 ==> Judge(after.store.value, v, k) == Confounded) <==>
            NewHarness(s, m, gate)
  {
    StoredHarness(s, m, gate, disk);
    var (r, after) := Apply(s, m, gate, disk);
    var store, k := after.store.value, (gate.genomeName, r.applied.genomeVersion);
    var p := (gate.genomeName, gate.parentVersion);
    assert store[p] == s.store.value[p];
    if NewHarness(s, m, gate) {
      forall v: Key | v.0 == k.0 && v.1 < k.1 ensures Judge(store, v, k) == Confounded {
        AttributedIffFresh(store, v, k);
      }
    } else {
      AttributedIffFresh(store, p, k);
      assert Judge(store, p, k) == Attributed;
    }
  }

  /** Then it stays so for everything that will ever descend from the new version. */
  lemma AcceptedDeltaStales(s: State, m: Mutations, gate: Gate, disk: Disk, v: Key, more: Store, d: Key)
    requires StoreOk(s) && s.store.Some? && Apply(s, m, gate, disk).0.Done?
    requires (gate.genomeName, gate.parentVersion) in s.store.value && NewHarness(s, m, gate)
    requires v.0 == gate.genomeName && v.1 < Apply(s, m, gate, disk).0.applied.genomeVersion
    requires Apply(s, m, gate, disk).1.store.Some?
    requires WellFormed(more) && Extends(Apply(s, m, gate, disk).1.store.value, more) && d in more
    requires Descends(more, d, (gate.genomeName, Apply(s, m, gate, disk).0.applied.genomeVersion))
    ensures Judge(more, v, d) == Confounded
  {
    StoredHarness(s, m, gate, disk);
    AcceptedDeltaStalesIff(s, m, gate, disk);
    var (r, after) := Apply(s, m, gate, disk);
    StaysStale(after.store.value, more, v, (gate.genomeName, r.applied.genomeVersion), d);
  }
}
