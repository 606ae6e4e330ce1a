/** Applying a mutation to an agent's harness: gates, persistence before application, undo. */
module HarnessMutation {
  import opened Options
  import opened Genomes

  datatype Mutations = Mutations(promptDelta: string, toolsAdd: seq<string>, toolsRemove: seq<string>,
                                 workflowPatch: Option<string>)

  datatype Verdict = NotAttempted | Attributed | Confounded | Insufficient

  datatype Quality = Excellent | Acceptable | Poor

  /** What the three readiness conditions look at. */
  datatype Evidence = Evidence(attribution: Verdict, quality: Quality, scalar: real, budgetExceeded: bool)

  /** The gate context; `evidence` is missing when one of its sources was not supplied. The genome
      name and parent version count only when there is a registry. */
  datatype Gate = Gate(evidence: Option<Evidence>, denied: seq<string>, genomeName: string, parentVersion: nat)

  datatype MutationError = NotReady | GovernanceDenied | UnsupportedVariant | RegistryRejected | InvalidMutation

  datatype Applied = Applied(
    prompts: seq<string>,
    toolsAdded: seq<string>,
    toolsRemoved: seq<string>,
    genomeVersion: nat,
    promptSnapshot: string,
    toolsSnapshot: seq<string>)

  datatype Outcome = Done(applied: Applied) | Failed(error: MutationError)

  /** An agent's prompt and tools, the tool registry, and the genome store if there is one. */
  datatype State = State(prompt: string, tools: seq<string>, registered: set<string>, store: Option<Store>)

  // ---- Tool lists ----

  /** The list without the first occurrence of `x`. */
  function RemoveFirst(s: seq<string>, x: string): seq<string> {
    if s == [] then [] else if s[0] == x then s[1..] else [s[0]] + RemoveFirst(s[1..], x)
  }

  /** One removal for each of `xs[i..]`, in order. */
  function RemoveFrom(s: seq<string>, xs: seq<string>, i: nat): seq<string>
    decreases |xs| - i
  {
    if i >= |xs| then s else RemoveFrom(RemoveFirst(s, xs[i]), xs, i + 1)
  }

  lemma {:induction false} RemoveFirstAppend(a: seq<string>, b: seq<string>, x: string)
    requires x !in b
    ensures RemoveFirst(a + b, x) == RemoveFirst(a, x) + b
    decreases |a|
  {
    if a == [] {
      assert a + b == b;
      AbsentStays(b, x);
    } else {
      assert (a + b)[1..] == a[1..] + b;
      RemoveFirstAppend(a[1..], b, x);
    }
  }

  lemma {:induction false} AbsentStays(s: seq<string>, x: string)
    requires x !in s
    ensures RemoveFirst(s, x) == s
    decreases |s|
  {
    if s != [] { AbsentStays(s[1..], x); }
  }

  lemma {:induction false} RemoveFromAppend(a: seq<string>, b: seq<string>, xs: seq<string>, i: nat)
    requires forall k :: i <= k < |xs| ==> xs[k] !in b
    ensures RemoveFrom(a + b, xs, i) == RemoveFrom(a, xs, i) + b
    decreases |xs| - i
  {
    if i < |xs| {
      RemoveFirstAppend(a, b, xs[i]);
      RemoveFromAppend(RemoveFirst(a, xs[i]), b, xs, i + 1);
    }
  }

  lemma {:induction false} RemoveFirstCount(s: seq<string>, x: string, y: string)
    ensures multiset(RemoveFirst(s, x))[y] == if x == y && x in s then multiset(s)[y] - 1 else multiset(s)[y]
    decreases |s|
  {
    if s != [] {
      assert s == [s[0]] + s[1..];
      if s[0] != x {
        RemoveFirstCount(s[1..], x, y);
        var rest := RemoveFirst(s[1..], x);
        assert multiset([s[0]] + rest)[y] == multiset([s[0]])[y] + multiset(rest)[y];
        assert multiset([s[0]] + s[1..])[y] == multiset([s[0]])[y] + multiset(s[1..])[y];
      }
    }
  }

  function Occurrences(xs: seq<string>, i: nat, y: string): nat
    decreases |xs| - i
  {
    if i >= |xs| then 0 else (if xs[i] == y then 1 else 0) + Occurrences(xs, i + 1, y)
  }

  /** Every tool loses as many of its occurrences as there are removals of it, as far as they last. */
  lemma {:induction false} RemoveFromCount(s: seq<string>, xs: seq<string>, i: nat, y: string)
    ensures var had, gone := multiset(s)[y], Occurrences(xs, i, y);
            multiset(RemoveFrom(s, xs, i))[y] == if had >= gone then had - gone else 0
    decreases |xs| - i
  {
    if i < |xs| {
      RemoveFirstCount(s, xs[i], y);
      RemoveFromCount(RemoveFirst(s, xs[i]), xs, i + 1, y);
    }
  }

  // ---- Gates ----

  /** The conditions that fail; all three are always looked at. */
  function FailedConditions(e: Evidence): seq<string> {
    (if e.attribution != Attributed then ["attribution_insufficient"] else []) +
    (if e.quality == Poor || e.scalar < 0.0 then ["regression_failed"] else []) +
    (if e.budgetExceeded then ["budget_exhausted"] else [])
  }

  predicate Ready(e: Evidence) {
    e.attribution == Attributed && e.quality != Poor && e.scalar >= 0.0 && !e.budgetExceeded
  }

  lemma ReadyIffNothingFails(e: Evidence)
    ensures FailedConditions(e) == [] <==> Ready(e)
  {
  }

  /** Each condition that does not hold is named. */
  lemma FailedConditionsAre(e: Evidence)
    ensures "attribution_insufficient" in FailedConditions(e) <==> e.attribution != Attributed
    ensures "regression_failed" in FailedConditions(e) <==> e.quality == Poor || e.scalar < 0.0
    ensures "budget_exhausted" in FailedConditions(e) <==> e.budgetExceeded
  {
    assert "attribution_insufficient"[0] != "budget_exhausted"[0];
    assert "attribution_insufficient"[0] != "regression_failed"[0];
    assert "regression_failed"[0] != "budget_exhausted"[0];
  }

  predicate Disjoint(a: seq<string>, b: seq<string>) {
    forall i, k :: 0 <= i < |a| && 0 <= k < |b| ==> a[i] != b[k]
  }

  predicate Changes(m: Mutations) {
    m.promptDelta != "" || m.toolsAdd != [] || m.toolsRemove != []
  }

  function FinalTools(tools: seq<string>, m: Mutations): seq<string> {
    RemoveFrom(tools + m.toolsAdd, m.toolsRemove, 0)
  }

  /** The first gate that refuses, before anything is persisted. */
  function Refusal(s: State, m: Mutations, gate: Gate): Option<MutationError> {
    if !Changes(m) && m.workflowPatch.None? then Some(InvalidMutation)
    else if !Disjoint(m.toolsAdd, m.toolsRemove) then Some(InvalidMutation)
    else if m.workflowPatch.Some? then Some(UnsupportedVariant)
    else if s.store.Some? && (gate.genomeName == "" || gate.parentVersion == 0) then Some(InvalidMutation)
    else if gate.evidence.None? then Some(InvalidMutation)
    else if FailedConditions(gate.evidence.value) != [] then Some(NotReady)
    else if !Disjoint(m.toolsAdd, gate.denied) || !Disjoint(m.toolsRemove, gate.denied) then Some(GovernanceDenied)
    else if exists i :: 0 <= i < |m.toolsAdd| && m.toolsAdd[i] !in s.registered then Some(RegistryRejected)
    else if s.store.Some? && FinalTools(s.tools, m) == [] then Some(InvalidMutation)
    else None
  }

  function Edited(s: State, m: Mutations): State {
    State(s.prompt + m.promptDelta, FinalTools(s.tools, m),
          s.registered - (set x | x in m.toolsRemove), s.store)
  }

  function Receipt(s: State, m: Mutations, version: nat): Applied {
    Applied(if m.promptDelta == "" then [] else [m.promptDelta], m.toolsAdd, m.toolsRemove, version, s.prompt, s.tools)
  }

  function Proposed(s: State, m: Mutations): Spec {
    Spec(s.prompt + m.promptDelta, FinalTools(s.tools, m), 0, "", "")
  }

  ghost function Apply(s: State, m: Mutations, gate: Gate, disk: Disk): (Outcome, State) {
    match Refusal(s, m, gate)
    case Some(e) => (Failed(e), s)
    case None =>
      match s.store
      case None => (Done(Receipt(s, m, 0)), Edited(s, m))
      case Some(store) =>
        var (r, after) := Forked(store, gate.genomeName, gate.parentVersion, Proposed(s, m), disk);
        match r
        case Err(_) => (Failed(RegistryRejected), s.(store := Some(after)))
        case Ok(version) => (Done(Receipt(s, m, version)), Edited(s, m).(store := Some(after)))
  }

  // ---- Results ----

  ghost predicate StoreOk(s: State) {
    s.store.Some? ==> WellFormed(s.store.value)
  }

  /** Whatever the error, nothing has changed. */
  lemma FailureChangesNothing(s: State, m: Mutations, gate: Gate, disk: Disk)
    requires StoreOk(s)
    ensures Apply(s, m, gate, disk).0.Failed? ==> Apply(s, m, gate, disk).1 == s
    ensures StoreOk(Apply(s, m, gate, disk).1)
  {
    if s.store.Some? {
      ForkIff(s.store.value, gate.genomeName, gate.parentVersion, Proposed(s, m), disk);
    }
  }

  /** What a caller has to provide for a mutation to go through. */
  ghost predicate Admissible(s: State, m: Mutations, gate: Gate, disk: Disk)
    requires StoreOk(s)
  {
    && Changes(m) && m.workflowPatch.None? && Disjoint(m.toolsAdd, m.toolsRemove)
    && gate.evidence.Some? && Ready(gate.evidence.value)
    && Disjoint(m.toolsAdd, gate.denied) && Disjoint(m.toolsRemove, gate.denied)
    && (forall i :: 0 <= i < |m.toolsAdd| ==> m.toolsAdd[i] in s.registered)
    && (s.store.Some? ==>
          && gate.genomeName != "" && gate.parentVersion != 0 && FinalTools(s.tools, m) != []
          && (gate.genomeName, gate.parentVersion) in s.store.value && disk == Disk(None, None)
          && Generations(s.store.value, (gate.genomeName, gate.parentVersion)) <= MAX_LINEAGE)
  }

  /** It goes through exactly then. */
  lemma SucceedsIffAdmissible(s: State, m: Mutations, gate: Gate, disk: Disk)
    requires StoreOk(s)
    ensures Apply(s, m, gate, disk).0.Done? <==> Admissible(s, m, gate, disk)
  {
    if gate.evidence.Some? { ReadyIffNothingFails(gate.evidence.value); }
    if s.store.Some? {
      ForkIff(s.store.value, gate.genomeName, gate.parentVersion, Proposed(s, m), disk);
    }
  }

  // ---- Which error ----

  /** There is something to change, without contradiction, and all the gates ask for is given. */
  predicate Complete(s: State, m: Mutations, gate: Gate) {
    && Changes(m) && m.workflowPatch.None? && Disjoint(m.toolsAdd, m.toolsRemove)
    && (s.store.Some? ==> gate.genomeName != "" && gate.parentVersion != 0) && gate.evidence.Some?
  }

  predicate TouchesDenied(m: Mutations, denied: seq<string>) {
    exists x :: x in denied && (x in m.toolsAdd || x in m.toolsRemove)
  }

  predicate AddsUnknown(s: State, m: Mutations) {
    exists x :: x in m.toolsAdd && x !in s.registered
  }

  ghost predicate ForkFails(s: State, gate: Gate, disk: Disk)
    requires StoreOk(s)
  {
    && s.store.Some?
    && var k := (gate.genomeName, gate.parentVersion);
       k !in s.store.value || disk != Disk(None, None) || Generations(s.store.value, k) > MAX_LINEAGE
  }

  lemma DeniedIs(m: Mutations, denied: seq<string>)
    ensures TouchesDenied(m, denied) <==> !Disjoint(m.toolsAdd, denied) || !Disjoint(m.toolsRemove, denied)
  {
    if !Disjoint(m.toolsAdd, denied) {
      var i, k :| 0 <= i < |m.toolsAdd| && 0 <= k < |denied| && m.toolsAdd[i] == denied[k];
      assert denied[k] in denied && denied[k] in m.toolsAdd;
    }
    if !Disjoint(m.toolsRemove, denied) {
      var i, k :| 0 <= i < |m.toolsRemove| && 0 <= k < |denied| && m.toolsRemove[i] == denied[k];
      assert denied[k] in denied && denied[k] in m.toolsRemove;
    }
  }

  lemma UnknownIs(s: State, m: Mutations)
    ensures AddsUnknown(s, m) <==> exists i :: 0 <= i < |m.toolsAdd| && m.toolsAdd[i] !in s.registered
  {
  }

  /** The refusals that look at the evidence or the policy. */
  lemma WhyRefused(s: State, m: Mutations, gate: Gate)
    ensures Refusal(s, m, gate) == Some(UnsupportedVariant) <==>
            m.workflowPatch.Some? && Disjoint(m.toolsAdd, m.toolsRemove)
    ensures Refusal(s, m, gate) == Some(NotReady) <==> Complete(s, m, gate) && !Ready(gate.evidence.value)
    ensures Refusal(s, m, gate) == Some(GovernanceDenied) <==>
            Complete(s, m, gate) && Ready(gate.evidence.value) && TouchesDenied(m, gate.denied)
  {
    DeniedIs(m, gate.denied);
    if gate.evidence.Some? { ReadyIffNothingFails(gate.evidence.value); }
  }

  /** What is left once evidence and policy agree. */
  lemma WhyRejected(s: State, m: Mutations, gate: Gate)
    requires Complete(s, m, gate) && Ready(gate.evidence.value) && !TouchesDenied(m, gate.denied)
    ensures Refusal(s, m, gate) ==
            if AddsUnknown(s, m) then Some(RegistryRejected)
            else if s.store.Some? && FinalTools(s.tools, m) == [] then Some(InvalidMutation)
            else None
  {
    DeniedIs(m, gate.denied);
    UnknownIs(s, m);
    ReadyIffNothingFails(gate.evidence.value);
  }

  /** Each error has one reason: a patch of the workflow; evidence that is not ready; a tool the policy denies; an
      added tool that is not registered, or a parent that cannot be forked; and anything else that is wrong is an
      invalid mutation. */
  lemma WhyItFails(s: State, m: Mutations, gate: Gate, disk: Disk)
    requires StoreOk(s)
    ensures var r := Apply(s, m, gate, disk).0;
            var agreed := Complete(s, m, gate) && Ready(gate.evidence.value) && !TouchesDenied(m, gate.denied);
            && (r == Failed(UnsupportedVariant) <==> m.workflowPatch.Some? && Disjoint(m.toolsAdd, m.toolsRemove))
            && (r == Failed(NotReady) <==> Complete(s, m, gate) && !Ready(gate.evidence.value))
            && (r == Failed(GovernanceDenied) <==>
                Complete(s, m, gate) && Ready(gate.evidence.value) && TouchesDenied(m, gate.denied))
            && (r == Failed(RegistryRejected) <==>
                agreed && (AddsUnknown(s, m) || (FinalTools(s.tools, m) != [] && ForkFails(s, gate, disk))))
  {
    WhyRefused(s, m, gate);
    if Complete(s, m, gate) && Ready(gate.evidence.value) && !TouchesDenied(m, gate.denied) {
      WhyRejected(s, m, gate);
    } else {
      RefusedEarly(s, m, gate);
    }
    if s.store.Some? {
      ForkIff(s.store.value, gate.genomeName, gate.parentVersion, Proposed(s, m), disk);
    }
  }

  lemma RefusedEarly(s: State, m: Mutations, gate: Gate)
    requires !(Complete(s, m, gate) && Ready(gate.evidence.value) && !TouchesDenied(m, gate.denied))
    ensures Refusal(s, m, gate).Some? && Refusal(s, m, gate) != Some(RegistryRejected)
  {
    DeniedIs(m, gate.denied);
    if gate.evidence.Some? { ReadyIffNothingFails(gate.evidence.value); }
  }

  /** A removed tool is registered no more, and every other tool as before. */
  lemma RegisteredAfter(s: State, m: Mutations, gate: Gate, disk: Disk, x: string)
    requires Apply(s, m, gate, disk).0.Done?
    ensures x in Apply(s, m, gate, disk).1.registered <==> x in s.registered && x !in m.toolsRemove
  {
  }

  // ---- Success ----

  /** What a success leaves behind: the edits, and in the store one new version, a child of the
      given parent with the live tools, and with the live prompt unless that is empty and the
      parent's is not: an empty harness inherits. The rest of the spec is the parent's. */
  lemma PersistedIsLive(s: State, m: Mutations, gate: Gate, disk: Disk)
    requires StoreOk(s) && s.store.Some? && Apply(s, m, gate, disk).0.Done?
    ensures var (r, after) := Apply(s, m, gate, disk);
            var parent, k := (gate.genomeName, gate.parentVersion), (gate.genomeName, r.applied.genomeVersion);
            && k !in s.store.value && parent in s.store.value && gate.parentVersion < k.1
            && after.store == Some(s.store.value[k := after.store.value[k]])
            && after.store.value[k].parent == Of(gate.genomeName, gate.parentVersion)
            && after.store.value[k].captureMode == s.store.value[parent].captureMode
            && after.store.value[k].spec ==
               s.store.value[parent].spec.(harness := after.store.value[k].spec.harness, tools := after.tools)
            && (after.store.value[k].spec.harness == after.prompt
                <==> after.prompt != "" || s.store.value[parent].spec.harness == "")
  {
    ForkIff(s.store.value, gate.genomeName, gate.parentVersion, Proposed(s, m), disk);
  }

  /** Adding first and removing then gives the same list as the other order, so the tools are the old
      ones without one occurrence for each removal, followed by the additions. */
  lemma ToolsAreRemovedThenAdded(s: State, m: Mutations, gate: Gate, disk: Disk)
    requires Apply(s, m, gate, disk).0.Done?
    ensures Apply(s, m, gate, disk).1.tools == RemoveFrom(s.tools, m.toolsRemove, 0) + m.toolsAdd
    ensures Apply(s, m, gate, disk).1.prompt == s.prompt + m.promptDelta
  {
    assert Disjoint(m.toolsAdd, m.toolsRemove);
    RemoveFromAppend(s.tools, m.toolsAdd, m.toolsRemove, 0);
  }

  /** The receipt of a success names what was added and removed, the delta if there was one, the new version, and
      the prompt and tools as they were. */
  lemma ReceiptTells(s: State, m: Mutations, gate: Gate, disk: Disk)
    requires StoreOk(s) && Apply(s, m, gate, disk).0.Done?
    ensures var (r, after) := Apply(s, m, gate, disk);
            && r.applied.toolsAdded == m.toolsAdd && r.applied.toolsRemoved == m.toolsRemove
            && r.applied.prompts == (if m.promptDelta == "" then [] else [m.promptDelta])
            && r.applied.promptSnapshot == s.prompt && r.applied.toolsSnapshot == s.tools
            && (s.store.None? ==> r.applied.genomeVersion == 0)
            && (s.store.Some? ==>
                  && (gate.genomeName, r.applied.genomeVersion) !in s.store.value && after.store.Some?
                  && (gate.genomeName, r.applied.genomeVersion) in after.store.value)
  {
    if s.store.Some? { PersistedIsLive(s, m, gate, disk); }
  }

  function Undone(s: State, applied: Applied): State {
    s.(prompt := applied.promptSnapshot, tools := applied.toolsSnapshot)
  }

  /** Undoing a success restores prompt and tools; it restores everything exactly when there is no
      store and no removed tool was registered. */
  lemma UndoRestores(s: State, m: Mutations, gate: Gate, disk: Disk)
    requires StoreOk(s) && Apply(s, m, gate, disk).0.Done?
    ensures var (r, after) := Apply(s, m, gate, disk);
            var undone := Undone(after, r.applied);
            && undone.prompt == s.prompt && undone.tools == s.tools
            && (undone == s <==> s.store.None? && forall x :: x in m.toolsRemove ==> x !in s.registered)
  {
    if s.store.Some? { PersistedIsLive(s, m, gate, disk); }
    var removed := set x | x in m.toolsRemove;
    if s.registered - removed == s.registered {
      forall x | x in m.toolsRemove ensures x !in s.registered { assert x in removed; }
    }
  }

  // ---- The agent ----

  class Agent {
    var prompt: string
    var tools: seq<string>
    var registered: set<string>

    constructor (prompt: string, tools: seq<string>, registered: set<string>)
      ensures this.prompt == prompt && this.tools == tools && this.registered == registered
    {
      this.prompt, this.tools, this.registered := prompt, tools, registered;
    }

    ghost function View(registry: Registry?): State
      reads this, registry
    {
      State(prompt, tools, registered, if registry == null then None else Some(registry.store))
    }

    method ApplyHarnessMutation(m: Mutations, gate: Gate, registry: Registry?, disk: Disk) returns (r: Outcome)
      modifies this, registry
      ensures (r, View(registry)) == Apply(old(View(registry)), m, gate, disk)
    {
      var refusal := CheckGates(m, gate, registry);
      assert m.promptDelta == "" ==> prompt + m.promptDelta == prompt;
      if refusal.Some? { return Failed(refusal.value); }
      var version := 0;
      if registry != null {
        var finalTools := EditTools(tools, m);
        if finalTools == [] { return Failed(InvalidMutation); }
        var forked := registry.Fork(gate.genomeName, gate.parentVersion,
                                    Spec(prompt + m.promptDelta, finalTools, 0, "", ""), disk);
        if forked.Err? { return Failed(RegistryRejected); }
        version := forked.value;
      }
      var promptSnapshot, toolsSnapshot := prompt, tools;
      var prompts := [];
      if m.promptDelta != "" {
        prompt := prompt + m.promptDelta;
        prompts := [m.promptDelta];
      }
      EditInPlace(m);
      r := Done(Applied(prompts, m.toolsAdd, m.toolsRemove, version, promptSnapshot, toolsSnapshot));
    }

    /** Gates 0 to 2.5. */
    method CheckGates(m: Mutations, gate: Gate, registry: Registry?) returns (refusal: Option<MutationError>)
      ensures refusal.Some? ==> Refusal(View(registry), m, gate) == refusal
      ensures refusal.None? ==>
                Refusal(View(registry), m, gate) ==
                if registry != null && FinalTools(tools, m) == [] then Some(InvalidMutation) else None
    {
      if m.promptDelta == "" && m.toolsAdd == [] && m.toolsRemove == [] && m.workflowPatch == None {
        return Some(InvalidMutation);
      }
      var apart := AllDiffer(m.toolsAdd, m.toolsRemove);
      if !apart { return Some(InvalidMutation); }
      if m.workflowPatch.Some? { return Some(UnsupportedVariant); }
      if registry != null && (gate.genomeName == "" || gate.parentVersion == 0) { return Some(InvalidMutation); }
      if gate.evidence == None { return Some(InvalidMutation); }
      if FailedConditions(gate.evidence.value) != [] { return Some(NotReady); }
      var addsAllowed := AllDiffer(m.toolsAdd, gate.denied);
      if !addsAllowed { return Some(GovernanceDenied); }
      var removesAllowed := AllDiffer(m.toolsRemove, gate.denied);
      if !removesAllowed { return Some(GovernanceDenied); }
      for i := 0 to |m.toolsAdd|
        invariant forall k :: 0 <= k < i ==> m.toolsAdd[k] in registered
      {
        if m.toolsAdd[i] !in registered { return Some(RegistryRejected); }
      }
      refusal := None;
    }

    /** Additions, then removals, of which each also leaves the registry. */
    method EditInPlace(m: Mutations)
      modifies `tools, `registered
      ensures tools == FinalTools(old(tools), m)
      ensures registered == old(registered) - (set x | x in m.toolsRemove)
    {
      for i := 0 to |m.toolsAdd|
        invariant tools == old(tools) + m.toolsAdd[..i] && registered == old(registered)
      {
        tools := tools + [m.toolsAdd[i]];
        assert m.toolsAdd[..i + 1] == m.toolsAdd[..i] + [m.toolsAdd[i]];
      }
      assert m.toolsAdd[..|m.toolsAdd|] == m.toolsAdd;
      for i := 0 to |m.toolsRemove|
        invariant RemoveFrom(tools, m.toolsRemove, i) == FinalTools(old(tools), m)
        invariant registered == old(registered) - (set x | x in m.toolsRemove[..i])
      {
        var x := m.toolsRemove[i];
        assert m.toolsRemove[..i + 1] == m.toolsRemove[..i] + [x];
        registered := registered - {x};
        tools := EraseFirst(tools, x);
      }
      assert m.toolsRemove[..|m.toolsRemove|] == m.toolsRemove;
    }

    method UndoAppliedMutation(applied: Applied)
      modifies `prompt, `tools
      ensures View(null) == Undone(old(View(null)), applied)
    {
      prompt, tools := applied.promptSnapshot, applied.toolsSnapshot;
    }
  }

  /** The same edits on a copy of the list. */
  method EditTools(tools: seq<string>, m: Mutations) returns (edited: seq<string>)
    ensures edited == FinalTools(tools, m)
  {
    edited := tools + m.toolsAdd;
    for i := 0 to |m.toolsRemove|
      invariant RemoveFrom(edited, m.toolsRemove, i) == FinalTools(tools, m)
    {
      edited := EraseFirst(edited, m.toolsRemove[i]);
    }
  }

  /** Find and erase. */
  method EraseFirst(s: seq<string>, x: string) returns (r: seq<string>)
    ensures r == RemoveFirst(s, x)
  {
    var i := 0;
    while i < |s| && s[i] != x
      invariant 0 <= i <= |s| && x !in s[..i]
    {
      assert s[..i + 1] == s[..i] + [s[i]];
      i := i + 1;
    }
    if i == |s| {
      assert s[..i] == s;
      AbsentStays(s, x);
      return s;
    }
    FirstAt(s, x, i);
    r := s[..i] + s[i + 1..];
  }

  lemma {:induction false} FirstAt(s: seq<string>, x: string, i: nat)
    requires i < |s| && s[i] == x && x !in s[..i]
    ensures RemoveFirst(s, x) == s[..i] + s[i + 1..]
    decreases i
  {
    if i > 0 {
      assert s[0] in s[..i];
      assert s[1..][..i - 1] == s[..i][1..];
      FirstAt(s[1..], x, i - 1);
    }
  }

  method AllDiffer(a: seq<string>, b: seq<string>) returns (r: bool)
    ensures r <==> Disjoint(a, b)
  {
    for i := 0 to |a|
      invariant forall j, k :: 0 <= j < i && 0 <= k < |b| ==> a[j] != b[k]
    {
      for k := 0 to |b|
        invariant forall l :: 0 <= l < k ==> a[i] != b[l]
      {
        if a[i] == b[k] { return false; }
      }
    }
    r := true;
  }
}
