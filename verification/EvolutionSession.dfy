/** A run of the evolution session: one prompt mutation for each context, each persisted as a child of
    the last, and a reload of what was persisted. */
module EvolutionSession {
  import opened Options
  import opened Sequences
  import opened Genomes
  import opened HarnessMutation
  import opened DataFreshness

  const NAME := "default"
  const SEED_PROMPT := "You are an L2 evolution evaluator."
  const DELTA := "\n\n# Mutation: harness refinement from context "

  /** One context, with what the evaluator, the budget and the disk do while it runs. */
  datatype Context = Context(id: string, evidence: Evidence, mutating: Disk, reloading: Disk)

  function Delta(c: Context): string {
    DELTA + c.id
  }

  function MutationFor(c: Context): Mutations {
    Mutations(Delta(c), [], [], None)
  }

  function GateFor(c: Context, parentVersion: nat): Gate {
    Gate(Some(c.evidence), [], NAME, parentVersion)
  }

  function Root(tools: seq<string>): Genome {
    Genome(NAME, 0, NoParent, "mock", Spec(SEED_PROMPT, tools, 0, "", ""))
  }

  // ---- What a run does to the prompt and the store ----

  /** The live prompt, the last committed version, and the store. */
  datatype Live = Live(prompt: string, last: nat, store: Store)

  ghost function Tried(live: Live, tools: seq<string>, registered: set<string>, c: Context): (Outcome, State) {
    Apply(State(live.prompt, tools, registered, Some(live.store)), MutationFor(c), GateFor(c, live.last), c.mutating)
  }

  ghost function Mutated(live: Live, tools: seq<string>, registered: set<string>, c: Context): Live {
    var (r, after) := Tried(live, tools, registered, c);
    if r.Done? && after.store.Some? then Live(after.prompt, r.applied.genomeVersion, after.store.value)
    else live.(store := if after.store.Some? then after.store.value else live.store)
  }

  /** What phase 4 builds its rerun from: nothing while no mutation was accepted, and nothing when the
      version cannot be loaded. */
  function Reloaded(live: Live, baseline: nat, disk: Disk): Option<string> {
    if live.last <= baseline then None
    else
      match Load(live.store, (NAME, live.last), disk)
      case Err(_) => None
      case Ok(g) => Some(g.spec.harness)
  }

  ghost predicate Accepts(live: Live, tools: seq<string>, c: Context)
    requires Mirrors(live)
  {
    && Ready(c.evidence) && tools != [] && c.mutating == Disk(None, None)
    && Generations(live.store, (NAME, live.last)) <= MAX_LINEAGE
  }

  /** The live prompt is the harness stored at the last committed version. */
  ghost predicate Mirrors(live: Live) {
    && WellFormed(live.store) && live.last >= 1 && live.prompt != ""
    && (NAME, live.last) in live.store && live.store[(NAME, live.last)].spec.harness == live.prompt
  }

  lemma SeedMirrors(tools: seq<string>, disk: Disk, store: Store)
    requires WellFormed(store)
    ensures var (r, after) := Committed(store, Root(tools), disk);
            r.Ok? ==> Mirrors(Live(SEED_PROMPT, r.value, after)) && Extends(store, after)
  {
    CommitKeeps(store, Root(tools), disk);
  }

  /** The seed is stored as a root of its own: the seed prompt, the tools there are, and nothing else set. */
  lemma SeedStores(tools: seq<string>, disk: Disk, store: Store)
    requires WellFormed(store) && Committed(store, Root(tools), disk).0.Ok?
    ensures var (r, after) := Committed(store, Root(tools), disk);
            ("default", r.value) !in store && ("default", r.value) in after &&
            var seed := after[("default", r.value)];
            && seed.spec == Spec("You are an L2 evolution evaluator.", tools, 0, "", "")
            && seed.parent == NoParent && seed.captureMode == "mock" && seed.version == r.value
            && (forall k :: k in store ==> k in after && after[k] == store[k])
  {
    CommitKeeps(store, Root(tools), disk);
  }

  /** What an accepted context adds to the prompt names the context. */
  lemma DeltaNames(c: Context)
    ensures Delta(c) == "\n\n# Mutation: harness refinement from context " + c.id
  {
  }

  /** One context: the mutation is accepted exactly when the evaluator and the budget allow it, there
      are tools, the disk obeys and the lineage is not at its cap. Then the prompt gains its delta and
      the version grows, as a child of the last; otherwise nothing changes. Either way the prompt
      still mirrors the store. */
  lemma MutationStep(live: Live, tools: seq<string>, registered: set<string>, c: Context)
    requires Mirrors(live)
    ensures var after := Mutated(live, tools, registered, c);
            && Mirrors(after)
            && (!Accepts(live, tools, c) ==> after == live)
            && (Accepts(live, tools, c) ==>
                  && after.prompt == live.prompt + Delta(c) && after.last > live.last
                  && Extends(live.store, after.store)
                  && after.store[(NAME, after.last)].parent == Of(NAME, live.last))
  {
    var s := State(live.prompt, tools, registered, Some(live.store));
    var m, gate := MutationFor(c), GateFor(c, live.last);
    FailureChangesNothing(s, m, gate, c.mutating);
    SucceedsIffAdmissible(s, m, gate, c.mutating);
    assert FinalTools(tools, m) == tools;
    if Apply(s, m, gate, c.mutating).0.Done? {
      PersistedIsLive(s, m, gate, c.mutating);
      ToolsAreRemovedThenAdded(s, m, gate, c.mutating);
    }
  }

  /** After a run of contexts. */
  ghost function AfterRun(live: Live, tools: seq<string>, registered: set<string>, contexts: seq<Context>): Live {
    if contexts == [] then live
    else
      var n := |contexts| - 1;
      Mutated(AfterRun(live, tools, registered, contexts[..n]), tools, registered, contexts[n])
  }

  ghost function Gain(live: Live, tools: seq<string>, c: Context): string {
    if Mirrors(live) && Accepts(live, tools, c) then Delta(c) else ""
  }

  /** The deltas of the accepted contexts, in order. */
  ghost function AcceptedDeltas(live: Live, tools: seq<string>, registered: set<string>, contexts: seq<Context>)
    : string
  {
    if contexts == [] then ""
    else
      var n := |contexts| - 1;
      var before := AfterRun(live, tools, registered, contexts[..n]);
      AcceptedDeltas(live, tools, registered, contexts[..n]) + Gain(before, tools, contexts[n])
  }

  lemma {:induction false} RunMirrors(live: Live, tools: seq<string>, registered: set<string>, contexts: seq<Context>)
    requires Mirrors(live)
    ensures var after := AfterRun(live, tools, registered, contexts);
            Mirrors(after) && after.last >= live.last && Extends(live.store, after.store)
    decreases |contexts|
  {
    if contexts != [] {
      var n := |contexts| - 1;
      RunMirrors(live, tools, registered, contexts[..n]);
      MutationStep(AfterRun(live, tools, registered, contexts[..n]), tools, registered, contexts[n]);
    }
  }

  lemma {:induction false} RunPrompt(live: Live, tools: seq<string>, registered: set<string>, contexts: seq<Context>)
    requires Mirrors(live)
    ensures AfterRun(live, tools, registered, contexts).prompt ==
            live.prompt + AcceptedDeltas(live, tools, registered, contexts)
    decreases |contexts|
  {
    if contexts == [] {
      assert live.prompt + "" == live.prompt;
    } else {
      var n := |contexts| - 1;
      var before := AfterRun(live, tools, registered, contexts[..n]);
      RunMirrors(live, tools, registered, contexts[..n]);
      RunPrompt(live, tools, registered, contexts[..n]);
      PromptStep(before, tools, registered, contexts[n]);
      Associates(live.prompt, AcceptedDeltas(live, tools, registered, contexts[..n]), Gain(before, tools, contexts[n]));
    }
  }

  lemma PromptStep(live: Live, tools: seq<string>, registered: set<string>, c: Context)
    requires Mirrors(live)
    ensures Mutated(live, tools, registered, c).prompt == live.prompt + Gain(live, tools, c)
  {
    MutationStep(live, tools, registered, c);
    if !Accepts(live, tools, c) { assert live.prompt + "" == live.prompt; }
  }

  /** Through any list of contexts after a successful seed, in a new directory or one that earlier
      sessions filled, the prompt stays the harness of the last committed version, that version never
      decreases, the prompt is the seed prompt followed by the accepted deltas in order, and the
      earlier versions are left as they were. */
  lemma SessionMirrors(existing: Store, tools: seq<string>, registered: set<string>, disk: Disk, contexts: seq<Context>)
    requires WellFormed(existing) && Committed(existing, Root(tools), disk).0.Ok?
    ensures var seed := Committed(existing, Root(tools), disk);
            var start := Live(SEED_PROMPT, seed.0.value, seed.1);
            var after := AfterRun(start, tools, registered, contexts);
            && Mirrors(start) && Mirrors(after) && after.last >= seed.0.value
            && after.prompt == SEED_PROMPT + AcceptedDeltas(start, tools, registered, contexts)
            && Extends(existing, after.store)
  {
    SeedMirrors(tools, disk, existing);
    var seed := Committed(existing, Root(tools), disk);
    var start := Live(SEED_PROMPT, seed.0.value, seed.1);
    RunMirrors(start, tools, registered, contexts);
    RunPrompt(start, tools, registered, contexts);
  }

  lemma {:induction false} RunDescends(live: Live, tools: seq<string>, registered: set<string>, contexts: seq<Context>)
    requires Mirrors(live)
    ensures var after := AfterRun(live, tools, registered, contexts);
            Mirrors(after) && Descends(after.store, (NAME, after.last), (NAME, live.last))
    decreases |contexts|
  {
    RunMirrors(live, tools, registered, contexts);
    if contexts != [] {
      var n := |contexts| - 1;
      var before := AfterRun(live, tools, registered, contexts[..n]);
      RunDescends(live, tools, registered, contexts[..n]);
      MutationStep(before, tools, registered, contexts[n]);
      DescendsStep(live, before, AfterRun(live, tools, registered, contexts));
    }
  }

  lemma DescendsStep(live: Live, before: Live, after: Live)
    requires Mirrors(before) && Mirrors(after) && Descends(before.store, (NAME, before.last), (NAME, live.last))
    requires after == before ||
             (Extends(before.store, after.store) && after.store[(NAME, after.last)].parent == Of(NAME, before.last))
    ensures Descends(after.store, (NAME, after.last), (NAME, live.last))
  {
    if after != before {
      assert WellPlaced(after.store, (NAME, after.last));
      DescendsStable(before.store, after.store, (NAME, before.last), (NAME, live.last));
    }
  }

  /** Phase 4 reruns with exactly the live prompt: it reloads once anything has been accepted and the
      disk can be read, and what it reloads is the prompt. */
  lemma ReloadIsLive(live: Live, baseline: nat, disk: Disk)
    requires Mirrors(live) && Generations(live.store, (NAME, live.last)) <= MAX_LINEAGE + 1
    ensures Reloaded(live, baseline, disk) ==
            if live.last > baseline && disk.reading.None? then Some(live.prompt) else None
  {
    LoadIff(live.store, (NAME, live.last), disk);
  }

  /** A lineage the session built never exceeds what can be loaded. */
  lemma {:induction false} RunIsLoadable(live: Live, tools: seq<string>, registered: set<string>,
                                         contexts: seq<Context>)
    requires Mirrors(live) && Generations(live.store, (NAME, live.last)) <= MAX_LINEAGE + 1
    ensures var after := AfterRun(live, tools, registered, contexts);
            Mirrors(after) && Generations(after.store, (NAME, after.last)) <= MAX_LINEAGE + 1
    decreases |contexts|
  {
    if contexts != [] {
      var n := |contexts| - 1;
      var before := AfterRun(live, tools, registered, contexts[..n]);
      RunIsLoadable(live, tools, registered, contexts[..n]);
      MutationStep(before, tools, registered, contexts[n]);
      var after := AfterRun(live, tools, registered, contexts);
      if Accepts(before, tools, contexts[n]) {
        assert WellPlaced(after.store, (NAME, after.last));
        AncestorsStable(before.store, after.store, (NAME, before.last));
      }
    }
  }

  /** Once a context of the run was accepted, whatever was recorded before it is stale for the rest
      of the run. */
  lemma AcceptedContextStales(live: Live, tools: seq<string>, registered: set<string>, c: Context,
                              rest: seq<Context>, v: nat)
    requires Mirrors(live) && Accepts(live, tools, c) && v <= live.last
    ensures var after := AfterRun(Mutated(live, tools, registered, c), tools, registered, rest);
            Judge(after.store, (NAME, v), (NAME, after.last)) == Confounded
  {
    var next := Mutated(live, tools, registered, c);
    MutationStep(live, tools, registered, c);
    RunMirrors(next, tools, registered, rest);
    RunDescends(next, tools, registered, rest);
    var after := AfterRun(next, tools, registered, rest);
    var s := State(live.prompt, tools, registered, Some(live.store));
    SucceedsIffAdmissible(s, MutationFor(c), GateFor(c, live.last), c.mutating);
    assert FinalTools(tools, MutationFor(c)) == tools;
    var m, gate := MutationFor(c), GateFor(c, live.last);
    AcceptedDeltaStales(s, m, gate, c.mutating, (NAME, v), after.store, (NAME, after.last));
  }

  // ---- The session object ----

  class Session {
    var agent: Agent
    var genomes: Registry
    var last: nat
    var baseline: nat
    /** The prompts phase 4 rebuilt a chat with, one entry for each context. */
    var reruns: seq<Option<string>>

    ghost function View(): Live
      reads this, agent, genomes
    {
      Live(agent.prompt, last, genomes.store)
    }

    /** The seed commit on what the directory holds. If it fails, no version is recorded. */
    constructor (existing: Store, tools: seq<string>, registered: set<string>, disk: Disk)
      ensures fresh(agent) && fresh(genomes) && agent.tools == tools && agent.registered == registered
      ensures agent.prompt == SEED_PROMPT && baseline == last && reruns == []
      ensures var (r, store) := Committed(existing, Root(tools), disk);
              genomes.store == store && last == if r.Ok? then r.value else 0
    {
      var genomes := new Registry(existing);
      var seed := genomes.Commit(Root(tools), disk);
      agent := new Agent(SEED_PROMPT, tools, registered);
      this.genomes := genomes;
      var version := if seed.Ok? then seed.value else 0;
      last, baseline, reruns := version, version, [];
    }

    /** A prompt-only mutation of a copy; the agent's prompt follows only on success. */
    method Mutate(c: Context)
      modifies this, agent, genomes
      ensures agent == old(agent) && genomes == old(genomes) && baseline == old(baseline) && reruns == old(reruns)
      ensures View() == Mutated(old(View()), old(agent.tools), old(agent.registered), c)
      ensures old(Mirrors(View())) ==> agent.tools == old(agent.tools) && agent.registered == old(agent.registered)
    {
      ghost var was := View();
      var copy := new Agent(agent.prompt, agent.tools, agent.registered);
      var r := copy.ApplyHarnessMutation(MutationFor(c), GateFor(c, last), genomes, c.mutating);
      if Mirrors(was) { NoToolChange(was, agent.tools, agent.registered, c); }
      agent.tools, agent.registered := copy.tools, copy.registered;
      if r.Done? {
        last := r.applied.genomeVersion;
        agent.prompt := copy.prompt;
      }
    }

    method Reload(c: Context)
      modifies `reruns
      ensures reruns == old(reruns) + [Reloaded(View(), baseline, c.reloading)]
    {
      if last <= baseline {
        reruns := reruns + [None];
        return;
      }
      var g := Load(genomes.store, (NAME, last), c.reloading);
      reruns := reruns + [if g.Ok? then Some(g.value.spec.harness) else None];
    }

    /** What one context does. */
    method Step(c: Context)
      requires Mirrors(View()) && Generations(View().store, (NAME, last)) <= MAX_LINEAGE + 1
      modifies this, agent, genomes
      ensures agent == old(agent) && genomes == old(genomes) && baseline == old(baseline)
      ensures agent.tools == old(agent.tools) && agent.registered == old(agent.registered)
      ensures View() == Mutated(old(View()), agent.tools, agent.registered, c)
      ensures reruns == old(reruns) + [Rerun(View(), baseline, c)]
    {
      ghost var was, tools, registered := View(), agent.tools, agent.registered;
      assert AfterRun(was, tools, registered, [c]) == Mutated(was, tools, registered, c) by {
        assert [c][..0] == [];
        assert AfterRun(was, tools, registered, [c][..0]) == was;
      }
      RunIsLoadable(was, tools, registered, [c]);
      Mutate(c);
      ReloadIsLive(View(), baseline, c.reloading);
      Reload(c);
    }

    /** The loop over the contexts. */
    method Run(contexts: seq<Context>)
      requires Mirrors(View()) && Generations(View().store, (NAME, last)) <= MAX_LINEAGE + 1
      modifies this, agent, genomes
      ensures View() == AfterRun(old(View()), old(agent.tools), old(agent.registered), contexts)
      ensures baseline == old(baseline)
      ensures reruns == old(reruns) + Reruns(old(View()), old(agent.tools), old(agent.registered), contexts, baseline)
    {
      ghost var start, tools, registered, before := View(), agent.tools, agent.registered, reruns;
      assert before + [] == before;
      for i := 0 to |contexts|
        invariant agent == old(agent) && genomes == old(genomes) && baseline == old(baseline)
        invariant agent.tools == tools && agent.registered == registered
        invariant View() == AfterRun(start, tools, registered, contexts[..i])
        invariant reruns == before + Reruns(start, tools, registered, contexts[..i], baseline)
      {
        assert contexts[..i + 1][..i] == contexts[..i];
        RunIsLoadable(start, tools, registered, contexts[..i]);
        Step(contexts[i]);
        ghost var soFar := Reruns(start, tools, registered, contexts[..i], baseline);
        Associates(before, soFar, [Rerun(View(), baseline, contexts[i])]);
      }
      assert contexts[..|contexts|] == contexts;
    }
  }

  /** The prompt a rerun uses: the live one, if anything was accepted and the disk can be read. */
  function Rerun(live: Live, baseline: nat, c: Context): Option<string> {
    if live.last > baseline && c.reloading.reading.None? then Some(live.prompt) else None
  }

  ghost function Reruns(start: Live, tools: seq<string>, registered: set<string>, contexts: seq<Context>, baseline: nat)
    : seq<Option<string>>
  {
    if contexts == [] then []
    else
      var n := |contexts| - 1;
      Reruns(start, tools, registered, contexts[..n], baseline) +
      [Rerun(AfterRun(start, tools, registered, contexts), baseline, contexts[n])]
  }

  lemma NoToolChange(live: Live, tools: seq<string>, registered: set<string>, c: Context)
    ensures Tried(live, tools, registered, c).1.tools == tools
    ensures Tried(live, tools, registered, c).1.registered == registered
  {
    assert FinalTools(tools, MutationFor(c)) == tools;
  }
}
